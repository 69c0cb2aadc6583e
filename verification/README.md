# Verified model of the Favorites synchronisation CLI

This project models the parts of the `ott` command line tool that must not go wrong when a
machine crashes, a network stalls or a device answers something unexpected, and proves what
they promise. Each component below is one Dafny module; `dafny verify dfyconfig.toml` checks
them all.

| component | modules | repository file |
|---|---|---|
| private evidence stores on one directory | `PrivateDirectory`, `Retention`, `EvidenceStore`, `Acknowledgements`, `AcknowledgementStores`, `StoreViews`, `SharedDirectory` | `cli/favorites_operations.py` |
| receipts, and what they allow the store to delete | `Receipts`, `ReceiptLaws`, `Reclamation` | `cli/favorites_protocol.py`, `cli/favorites_operations.py` |
| batched guide search | `Batches`, `Answers`, `GuideSearch`, `GuideLaws`, `Lexical` | `cli/epg_search.py` |
| encoding, packing and pacing of a transfer | `Base64`, `Transfer`, `Schedule` | `cli/favorites_transfer.py` |
| bounded codec, inventory and merge planner | `JsonBudget`, `JsonText`, `Scopes`, `Inventory`, `Planner` | `cli/favorites_document.py` |
| durable registration | `Registry` | `cli/device_registry.py` |
| application update | `AppUpdate` | `cli/app_update.py` |
| device shutdown | `DevicePower` | `cli/device_power.py` |

## How the world is modelled

* **Directory and crashes.** A directory is a map from names to bytes and a "private regular
  file" flag. Every unlink, exclusive write and replacement is a sequence of durable contents
  recorded in a ghost history; a crash leaves any one of them. Every primitive may also fail: a
  failed unlink or replacement may have happened, a failed write may leave any prefix. Store
  methods prove that each recorded content is one that a `Leaves` relation allows; the run lemmas
  are about arbitrary sequences of such contents, so they cover runs cut off anywhere. Staging
  tokens are random in the program and taken to be fresh here.
* **Players, guide, device, server.** Replies are nondeterministic. In `DevicePower` the world is
  an arbitrary script of answers, ended by the deadline.
* **Registry server.** Assumed: an operation id is applied at most once (`Registry.AppliedOnce`), its
  record is kept and truthful for as long as the client may resume, and nobody else writes to the
  registry meanwhile. Not assumed: that an acceptable request is accepted. The server may turn any
  request away without looking at it (internal/control/device_registry_api.go:49-69), what it accepts
  may change with time (internal/control/device_registry_pairing.go:61-64), requests and replies may
  be lost, and a lost request may still arrive later, any number of times.
* **Given functions.** Text recognition, JSON parsing, regular expressions, SHA-256, the record
  codec and the protocol validators that another component supplies are parameters, with the one
  property used stated where it is used (for example `Rules.Lossless`, `Prints`).
* **Numbers.** Integers are unbounded as in Python; seconds are exact reals.

## What came out differently from a first reading

* A power failure report is *not* always marked as uncertain once something was sent: when the
  power service was not asked, a tap was acknowledged, and the button was then seen with focus, a
  key press whose process never starts is reported as an ordinary failure.
  `DevicePower.Adb.Shutdown` proves that, apart from the explicit permission denial, this happens
  in exactly the worlds that `Strands` describes, and `DevicePower.TappedButUnmarked` gives the run.
* An admitted transfer whose previous POST started this very moment, with a budget that leaves
  nothing over, is refused its first window. `Schedule.FirstWindowAfterPost` proves that this is the
  only exception.
* A registration whose checkpoint is gone need not have been made: the client drops its checkpoint on
  every answer below 500, also when a resumed request met a rate limit or an expired pairing
  (`Registry.GivenUpUnapplied`). `Registry.Persevere` proves that this happens exactly when the last
  attempt's request was refused, and what is then left.
* The installed code is compared in the first report only, so an install can be requested although a
  later report already shows the target code or a newer one (`AppUpdate.InstallOverNewer`);
  `AppUpdate.InstallSeesOlder` proves from which first reports exactly this is possible.
* A verified status obtained after a player restart can be shown to the user but never recorded, as
  the comment at cli/favorites_operations.py:257-262 announces: `Reclamation.WeakEvidenceKeepsPending`
  proves that an operation with only such evidence keeps its record throughout every run.
* The final size check and the node limit of the document traversal never decide anything
  (`JsonBudget.Bounded`).
* Once the intent is well formed, every failure of filing acknowledgement evidence, including a
  full store, is reported as an invalid completion (cli/favorites_operations.py:515-516); the
  model follows the code.

## Model

| member | source | states |
|---|---|---|
| PrivateDirectory.Directory.WriteNew | cli/preset_favorites.py:153-167 | exclusive creation: the name was unused, and whatever is left at any point is the old content or a prefix of the new file |
| PrivateDirectory.Directory.Unlink | cli/preset_favorites.py:125-129 | deletion: success means gone, failure means gone or untouched, nothing else changes |
| PrivateDirectory.Directory.Replace | cli/preset_favorites.py:131-136 | atomic replacement: target gets the staged file in one step, or nothing happens |
| Retention.PlanIsUnique | cli/favorites_operations.py:168-194 | the evictable records, the age order and the limits determine the victims: there is at most one eviction plan |
| Retention.PlanIsShortest | cli/favorites_operations.py:185-194 | no shorter oldest-first list of completed, unprotected records brings count and bytes within bounds |
| Retention.FullHasNoPlan | cli/favorites_operations.py:185-194 | when even evicting every candidate leaves too much, no plan exists at all, so `capacity` is the only answer |
| Retention.PlanMeans | cli/favorites_operations.py:143-194 | a plan in numbers: its victims are readable completed records, each recorded before the next and before every one that stays; with them gone 32 records and 262144 bytes are kept, with all but the last of them gone they are not |
| Retention.FullMeans | cli/favorites_operations.py:143-194 | `capacity` is refused exactly when a hard limit is reached or evicting every completed record that may go would not be enough |
| Retention.ReadIs | cli/favorites_operations.py:91-141 | exactly which private file of at most 131072 bytes, for which target, context and name, is usable evidence, and what it says |
| Retention.ReadRefuses | cli/favorites_operations.py:91-141 | what a file that is no usable evidence is refused as |
| Retention.StepKeepsBounds | cli/favorites_operations.py:216-328 | any content one save or completion can leave, cut off anywhere, has at most 32 records, 8 staging files and 256 KiB |
| Retention.StepKeepsFiles | cli/favorites_operations.py:196-311 | one call leaves each existing file alone, deletes it if it is a readable record whose proof validates, or completes it if it is the pending record being completed |
| Retention.RunStaysBounded | cli/favorites_operations.py:143-311 | the three limits hold at every moment of every run of calls |
| Retention.RunFromEmptyIsBounded | cli/favorites_operations.py:143-311 | starting empty: 32 records, 8 staging files, 262144 bytes, with the numbers spelled out |
| Retention.PendingSurvives | cli/favorites_operations.py:216-341 | a saved operation stays loadable with exactly its saved context until the run has recorded a validated completion of that operation |
| Retention.CompletionIsFinal | cli/favorites_operations.py:273-320 | a recorded completion keeps its exact bytes until it is reclaimed |
| Retention.UnprovenIsUntouched | cli/favorites_operations.py:127-214 | damaged, foreign or unproven files are never changed or deleted in any run |
| EvidenceStore.ContextStore.Load | cli/favorites_operations.py:330-341 | returns exactly the context of a readable record of that operation; without a fault it succeeds exactly when there is one; an id that is no UUID and each refusal is told apart, and no fault is passed over in a success |
| EvidenceStore.ContextStore.Inventory | cli/favorites_operations.py:143-194 | returns an eviction plan, or `capacity` exactly when none can exist; each victim's completion was recorded before that of the next victim and of every completed record that could go and stays, ties by name; the loops over names, bytes and candidates compute the specified totals |
| EvidenceStore.ContextStore.Reclaim | cli/favorites_operations.py:196-214 | deletes the victims in order, re-reading each; every content on the way is a prefix of the plan, and `unavailable` means nothing was deleted |
| EvidenceStore.ContextStore.Save | cli/favorites_operations.py:216-255 | an identical record is returned unchanged with its evidence, a different one is a conflict, a new one is written after the planned eviction; an error other than `retention_uncertain` means no existing file changed; without a fault the answer is fully determined; a success means that no read, write, sync or identity check failed on the way |
| EvidenceStore.ContextStore.Swap | cli/favorites_operations.py:286-327 | staging write, re-read, replacement: at every moment either the old record stands with a partial staging file or the new record does |
| EvidenceStore.ContextStore.MarkCompleted | cli/favorites_operations.py:257-328 | records a proven completion once and keeps the context; an existing proof must carry the same receipt and is not rewritten; an error other than `retention_uncertain` means no existing file changed; without a fault the answer is fully determined; a success means that nothing failed on the way |
| Acknowledgements.WriteKeepsReservation | cli/favorites_operations.py:426-454 | a write cut off anywhere keeps 32 intents, proofs only for intents, and sizes plus 8192 per pending intent within 256 KiB |
| Acknowledgements.PendingEvidenceFits | cli/favorites_operations.py:449-452 | whenever the reservation holds, evidence of up to 8192 bytes for any pending intent passes the byte, count and 64-file checks |
| Acknowledgements.AdmitsExactly | cli/favorites_operations.py:441-452 | a new file is refused exactly when its content would break 32 intents, proofs only for intents, or 262144 bytes with 8192 kept for each pending intent; the 64-file cap never decides |
| Acknowledgements.SameMeans | cli/favorites_operations.py:416-428 | a second value counts as the first when the bytes are equal or both decode to the same body, and for evidence to the same request id |
| Acknowledgements.ReachablePendingFits | cli/favorites_operations.py:408-461 | the same from any state any run from empty can reach |
| Acknowledgements.AllPendingEvidenceFits | cli/favorites_operations.py:449-452 | all pending evidence can be filed one after the other, in any order, without a capacity refusal |
| Acknowledgements.RunIsAppendOnly | cli/favorites_operations.py:416-451 | intents and evidence are never overwritten or removed in any run |
| AcknowledgementStores.Inspect | cli/favorites_operations.py:430-440 | the directory scan counts exactly the acknowledgement files, their bytes, intents and proofs, or reports a stray or unreadable one |
| AcknowledgementStores.AcknowledgementStore.Write | cli/favorites_operations.py:408-461 | writes once; without a fault a repeat is accepted exactly when the file on disk is readable and the same bytes or the same decoded value; never changes an existing file; without a fault the answer is fully determined; a success means that nothing failed on the way |
| AcknowledgementStores.AcknowledgementStore.SaveIntent | cli/favorites_operations.py:494-496 | an inspection and request that form no intent give `invalid_context` before anything is touched; otherwise exactly what writing the intent file answers |
| AcknowledgementStores.AcknowledgementStore.SaveEvidence | cli/favorites_operations.py:498-516 | without a well-formed intent the answer is `invalid_context`, and every other error is `invalid_completion`; success needs a confirmed result and a readable retained intent with the same decoded body; under the reservation nothing but a fault can refuse the evidence of a pending intent |
| SharedDirectory.EvidenceKeepsReservation | cli/favorites_operations.py:143-328 | saving and completing leave every acknowledgement file, and so the reservation, untouched |
| SharedDirectory.AcknowledgementKeepsBounds | cli/favorites_operations.py:408-461 | writing an acknowledgement leaves the evidence store's counts and bytes as they were |
| SharedDirectory.AloneIsInterleaved | cli/favorites_operations.py:216-328 | any content a save or completion alone can leave is reached by two interleaved steps, so the interleaved runs include the runs of whole calls |
| SharedDirectory.WriteAloneIsInterleaved | cli/favorites_operations.py:408-461 | the same for a write of an acknowledgement file |
| StoreViews.SamePlan | cli/favorites_operations.py:143-194 | the eviction plan is the same for any two directories with the same records and staging files |
| StoreViews.EvidenceSeesCounted | cli/favorites_operations.py:143-328 | what a save or completion can leave of records and staging files depends on these alone, whatever it takes the other names to be |
| StoreViews.AcknowledgementSeesOthers | cli/favorites_operations.py:408-461 | what a write can leave of the other names depends on these alone |
| SharedDirectory.NextIsSound | cli/favorites_operations.py:143-461 | no lock, reading or change of one store takes the call of the other store to a content it could not have left alone |
| SharedDirectory.SharedRunStaysBounded | cli/favorites_operations.py:143-461 | with single durable steps of both stores interleaved in any order on the one directory, the evidence store's limits hold throughout |
| SharedDirectory.SharedPendingFits | cli/favorites_operations.py:408-461 | under the same interleaving the evidence of every pending intent fits at every moment, also between two steps of the other store |
| SharedDirectory.SharedFromEmpty | cli/favorites_operations.py:24-29 | from an empty directory, with nothing else assumed, both the limits and the reservation hold at every moment of every interleaved run |
| SharedDirectory.SharedPendingSurvives | cli/favorites_operations.py:143-461 | under the same interleaving a saved operation stays pending until its own completion is recorded |
| Receipts.CheckRows | cli/favorites_protocol.py:553-573 | the loop accepts a list of per-store outcomes exactly when ids are distinct, at most 64, and the outcomes agree with the total |
| Receipts.VerifiedIsExactly | cli/favorites_protocol.py:654-841 | a reply is verified if and only if it answers the one authorised request with the receipt the retained begin and preview determine, naming each planned store once as verified; only the new revision and the row order are free |
| Receipts.VerifiedReceiptsAgree | cli/favorites_protocol.py:654-694 | two verified replies over the same evidence agree on everything but the new revision, whatever runtime answered |
| Receipts.RetainedExactly | cli/favorites_protocol.py:607-632 | two validated replies can be retained exactly when they are a begin and the ready preview of the transaction it began, with its revision and binding |
| Receipts.RetainGivesAll | cli/favorites_protocol.py:607-632 | the evidence a context may hold is exactly what retaining some pair of validated replies gives |
| Receipts.ChainKeepsEvidence | cli/favorites_protocol.py:635-651 | any chain of restarts keeps the original begin and preview; only the last runtime counts |
| Receipts.ChainWhen | cli/favorites_protocol.py:635-651 | a chain of restarts is possible exactly when every snapshot was accepted, asked for and answered for the scope of the original begin, and carries its binding revision |
| Receipts.RestartedAuthority | cli/favorites_protocol.py:654-667 | after any restart no commit reply is accepted, and on another runtime only a committed status of the same operation |
| Receipts.RestartKeepsVerdicts | cli/favorites_protocol.py:635-667 | a committed status verifies after any chain of restarts exactly when it would have before them, for any retained evidence |
| Receipts.ReadyMatchesAppends | cli/favorites_protocol.py:678-686 | an accepted ready status reports exactly what the last validated append of the plan reported |
| ReceiptLaws.RowsMean | cli/favorites_protocol.py:553-573 | per-store outcomes in fields: at most 64, none named twice, and none that contradicts the total |
| ReceiptLaws.SnapshotAccepted | cli/favorites_protocol.py:748-769 | a snapshot reply is accepted exactly when it is a known refusal or sound for the scope that was asked |
| ReceiptLaws.BeginAccepted | cli/favorites_protocol.py:770-774 | a begin and its reply in numbers: sizes that fill their chunks, the operation repeated, progress within the transfer |
| ReceiptLaws.AppendAccepted | cli/favorites_protocol.py:775-780 | an append reply is accepted exactly when it announces the next sequence number and offset |
| ReceiptLaws.PreviewAccepted | cli/favorites_protocol.py:781-791 | a preview in numbers: persistent, counted, at most 128 diagnostics, 1 to 64 distinct stores |
| ReceiptLaws.StatusAccepted | cli/favorites_protocol.py:792-835 | the staged, ended and committed statuses that are accepted, field by field |
| ReceiptLaws.CommitAccepted | cli/favorites_protocol.py:812-835 | a commit reply is accepted exactly when its rows agree with its outcome and, if verified, the inner receipt repeats the outer fields |
| ReceiptLaws.AbortAccepted | cli/favorites_protocol.py:836-840 | an abort reply is accepted exactly when nothing was applied |
| ReceiptLaws.StagedExactly | cli/favorites_protocol.py:654-686 | against retained evidence a staged status stands only on the original runtime and within the begun transfer, and ready only when whole and for the previewed plan |
| ReceiptLaws.EndedExactly | cli/favorites_protocol.py:654-678 | an ended status stands only on the original runtime, for the begun transaction and scope |
| ReceiptLaws.UnverifiedStatusExactly | cli/favorites_protocol.py:654-678 | an unverified committed status stands on whatever runtime may be asked, for planned stores only |
| ReceiptLaws.UnverifiedCommitExactly | cli/favorites_protocol.py:654-678 | an unverified commit reply stands only before any restart, for the previewed commit and planned stores |
| Reclamation.EvictableIsAttested | cli/favorites_operations.py:110-125 | every record the store may delete holds a reply fully attested by its own begin and preview, under the original runtime |
| Reclamation.ProofExactly | cli/favorites_operations.py:110-125 | revalidating a stored completion succeeds exactly for a reply attested by its own begin and preview, about its own operation, and gives that receipt |
| Reclamation.DisappearedWasAttested | cli/favorites_operations.py:143-214 | over any run, a record that is gone was attested before it went |
| Reclamation.WeakEvidenceKeepsPending | cli/favorites_operations.py:110-125 | partial, unknown or cross-runtime answers never complete an operation: its record stays pending for the whole run |
| Batches.Split | cli/epg_search.py:66-76 | the batches concatenate to the catalogue, each is acceptable, and no contiguous partition meeting the limits uses fewer |
| Batches.GreedyStaysAhead | cli/epg_search.py:66-76 | after any number of batches the greedy partition has covered at least as many rows as any other |
| Answers.ReadHits | cli/epg_search.py:142-157 | reads a list of live rows exactly when all are sound and strictly ordered, and no other reading exists |
| Answers.ReadChains | cli/epg_search.py:158-173 | the same for archive chains: nonempty, abutting, inside the archive, nondecreasing and distinct |
| Answers.Validate | cli/epg_search.py:84-177 | returns a value exactly when the answer has one, and then the value it means; the header is usable field by field and the rows are at most 10000 |
| Answers.HeaderMeans | cli/epg_search.py:84-110 | the header in fields and milliseconds: one source, the expected generation, whole, complete, fetched within two hours, as of this minute, valid for at most two hours |
| Answers.RowMeans | cli/epg_search.py:111-135 | a row in fields: on the air, or past and within the archive hours, with the text test of its kind |
| Answers.BeforeMeans | cli/epg_search.py:150-172 | rows are ordered by the first difference of channel number, start, end and title |
| GuideSearch.Catalogue | cli/epg_search.py:43-63 | accepts exactly the catalogues with sound rows, rising numbers and distinct ids, and returns for each its id, number, size and archive hours, in order |
| GuideSearch.EntryMeans | cli/epg_search.py:43-58 | a catalogue row in fields: identified, numbered, shifted by at most a day, at most six days of archive |
| GuideSearch.Search.Turn | cli/epg_search.py:200-230 | one turn asks exactly once, about the first pending batch with the generation fixed so far; after a timeout that does not end the search two nonempty halves take its place, the first of half its length, and after an accepted answer the rest is pending; served and pending batches still make up the catalogue; otherwise it stops for a stated reason |
| GuideSearch.Search.Collect | cli/epg_search.py:195-231 | a success covers the catalogue exactly, with validated answers of one generation and at most 10000 rows and 16777216 bytes, and `checked` ends at its length; no request is about an empty batch, the one after a timed-out batch is about its first half and the one after an answer begins where that one ended; at most 4 splits per search, exactly the fewest batches plus two calls per split; every failure is explained by the deadline, the last reply or the totals |
| GuideSearch.Search.FreshCollect | cli/epg_search.py:233-250 | one repetition at most; a success is complete for the expected generation, in a window still open; `window changed` only for a complete answer whose window has closed, and every other failure explained for that generation, or for the one of the first search when none was asked for |
| GuideLaws.MergeIsWholeAnswer | cli/epg_search.py:218-228 | when answers are per channel, the merge of the partial answers is the answer to the whole catalogue |
| GuideLaws.SplitIndependence | cli/epg_search.py:195-231 | two complete searches of one catalogue agree whichever batches timed out and were split |
| GuideLaws.RowsAreCounted | cli/epg_search.py:222-225 | the row total is the number of rows kept |
| GuideLaws.MergedOrder | cli/epg_search.py:142-173 | across batches and splits current rows rise by channel number, archive rows by their key, chains never fall and never repeat |
| GuideLaws.OneGenerationOneWindow | cli/epg_search.py:218-221 | all merged answers share one generation, the expected one if given, and the merged window lies inside each answer's own |
| GuideLaws.WindowIsAttained | cli/epg_search.py:218-221 | both ends of the merged window are those of some answer |
| GuideLaws.BytesAreCounted | cli/epg_search.py:222-225 | the byte total is the sum of the answers' sizes |
| GuideLaws.ChainFitsArchive | cli/epg_search.py:120-122 | the pieces of a chain telescope to one stretch of positive length at most the channel's archive hours |
| Base64.RoundTrip | cli/favorites_transfer.py:153-182 | strict decoding gives back every byte string that was encoded |
| Base64.StrictIsCanonical | cli/favorites_transfer.py:165-182 | the strictly accepted texts are exactly the encoder's outputs |
| Base64.SpareBitsRefused | cli/favorites_transfer.py:176-178 | a concrete text that lenient decoding takes and strict decoding refuses |
| Base64.KnownEncodings | cli/favorites_transfer.py:153-157 | vectors of section 10 of RFC 4648 that end in padding, and the two characters only high bits reach |
| Base64.KnownGroups | cli/favorites_transfer.py:153-157 | the vectors of section 10 of RFC 4648 made of full groups |
| Base64.AlphabetIs | cli/favorites_transfer.py:153-157 | all 64 characters, as in table 1 of RFC 4648 |
| Transfer.DecodeInvertsEncode | cli/favorites_transfer.py:153-182 | decoding succeeds with these bytes exactly for the encoding of these bytes; the length check beforehand refuses no valid encoding |
| Transfer.DecodeRefuses | cli/favorites_transfer.py:165-177 | which limit, stated size, digest or text is refused before anything is compared; a text is no encoding exactly when no byte string encodes to it |
| Transfer.DecodeCompares | cli/favorites_transfer.py:178-182 | otherwise the length is compared first and then the digest |
| Transfer.DigestMeans | cli/favorites_transfer.py:165-175 | a digest is 64 of the sixteen lower-case hexadecimal digits |
| Transfer.PackDocument | cli/favorites_transfer.py:232-267 | succeeds exactly when limits, document and chunk count are sound and both envelopes of every chunk fit and are strict JSON, and then gives the specified pieces in order; otherwise the error is the first fault, in document order, also as written out in fields and numbers |
| Transfer.OnlyOneFault | cli/favorites_transfer.py:241-266 | there is only one first fault: of two errors that a document can be refused with, both are the same |
| Transfer.PackMeans | cli/favorites_transfer.py:232-267 | packing succeeds exactly when limits and document are in order in numbers and so are both envelopes of every chunk cut at a multiple of the chunk size |
| Transfer.FaultMeans | cli/favorites_transfer.py:232-266 | which error is given when: limits, bytes, JSON and chunk count in this order, then the first bad chunk, too large or invalid by its first bad envelope |
| Transfer.PlanReassembles | cli/favorites_transfer.py:246-267 | decoding every chunk of a plan in order gives the original document |
| Transfer.PlanCanBegin | cli/favorites_protocol.py:514-519 | every plan satisfies the size and chunk-count constraint of a begin request |
| Transfer.AppendsReachReady | cli/favorites_protocol.py:775-780 | validated append replies announce exactly the next chunk, and the last one the whole document |
| Schedule.AdmissionPromises | cli/favorites_transfer.py:288-328 | admission leaves at least one interval per command and the reserve |
| Schedule.BudgetExactly | cli/favorites_transfer.py:270-314 | which budgets there are, in numbers, and that request rates out of range are reported only when all else is in order |
| Schedule.AdmittedExactly | cli/favorites_transfer.py:317-328 | a transfer is admitted exactly when the time left covers the reserve and each of the paced, controller and device rates, and which refusal is given otherwise |
| Schedule.NextWindow | cli/favorites_transfer.py:331-362 | after a granted window the next one, computed at any later moment, is granted exactly until one interval after the earlier timeout |
| Schedule.RecomputedWindow | cli/favorites_transfer.py:335-342 | recomputing after a wait keeps the end of the window; until its start nothing else changes, and it is refused exactly from that end on |
| Schedule.EveryWindowIsGranted | cli/favorites_transfer.py:309-362 | an admitted run is granted its first window, and a run whose calls keep their timeouts is granted the next one exactly when it is computed before one interval after the last timeout |
| Schedule.StartsAreSpaced | cli/favorites_transfer.py:351-358 | consecutive starts are at least one interval apart |
| Schedule.EndsInsideReserve | cli/favorites_transfer.py:359-362 | every call ends before the deadline less the reserve and one interval per later command |
| Schedule.GrantedExactlyWhen | cli/favorites_transfer.py:331-362 | a window is granted exactly when now, the paced start and the backpressure time all lie before the cutoff |
| Schedule.WindowExactly | cli/favorites_transfer.py:331-362 | a granted window starts at the earliest allowed moment, and its end leaves the reserve and one interval per later command; which arguments are refused |
| Schedule.FirstWindowAfterPost | cli/favorites_transfer.py:309-362 | after a POST the first window is refused exactly when the POST started now and the budget is exactly the paced minimum |
| Schedule.ExactBudgetAfterPost | cli/favorites_transfer.py:309-362 | the numbers of one such refusal |
| JsonBudget.Budget.Visit | cli/favorites_document.py:54-84 | the traversal subtracts exactly the length of the compact serialisation and accepts exactly the well-shaped trees that fit what remains |
| JsonBudget.DictCost | cli/favorites_document.py:62-74 | a dictionary's serialisation, keys sorted, costs its braces, commas, colons, keys and values |
| JsonBudget.Bounded | cli/favorites_document.py:54-91 | accepts exactly the trees of depth 16, 64 fields and 65536 items at most, without lone surrogates or non-finite numbers, whose serialisation is at most 1048576 bytes |
| JsonText.TextReadsBack | cli/favorites_document.py:50-85 | every text of Unicode scalar values reads back from its serialisation under RFC 8259 and RFC 3629 |
| JsonText.SortedRises | cli/favorites_document.py:50-51 | the fields of an object are written in the order of their keys, each as often as it occurs |
| JsonText.PointsLessMeans | cli/favorites_document.py:50-51 | keys are ordered by their first difference |
| JsonText.KnownDocument | cli/favorites_document.py:50-51 | one nested document, byte by byte |
| Inventory.TakeInventory | cli/favorites_document.py:216-242 | the loops count each membership once for every position in lists and media favorites that gives it, and collect exactly the items some position holds |
| Inventory.BundleCount | cli/favorites_document.py:228-241 | the counted multiplicity of a membership is the number of its positions |
| Inventory.SameIdentity | cli/favorites_document.py:229-238 | when two entries are the same item: the same locator anywhere, the same numbered legacy entry of a domain, or the same unidentified record at the same position |
| Inventory.CountsBalance | cli/favorites_document.py:245-249 | before = retained + removed and after = retained + added, with removed and added the multiset differences |
| Inventory.MembershipsGrow | cli/favorites_document.py:216-242 | a bundle that holds more scopes holds at least the same memberships |
| Planner.ClearScope | cli/favorites_document.py:285-295 | succeeds exactly for a scope that is a valid document by itself; then every list and the media favorites are empty, and names and everything else are kept |
| Scopes.OrderedIsUnique | cli/favorites_document.py:211-213 | a key-ordered document is determined by its content |
| Scopes.KeyLessMeans | cli/favorites_document.py:94-96 | keys are ordered by provider, then profile, then source |
| Planner.ConflictsAreDisputes | cli/favorites_document.py:263-272 | a key conflicts exactly when its values, the saved one included, are not all equal |
| Planner.ChosenStand | cli/favorites_document.py:262-275 | the document holds exactly the saved value of each key or, without one, the first that came in |
| Planner.SkippedAreRepeated | cli/favorites_document.py:268-271 | the duplicates reported as skipped are the distinct items at the positions of every incoming scope that equals the value standing for its key |
| Planner.InputOrderIsIrrelevant | cli/favorites_document.py:252-282 | permuting the inputs changes no conflict, and without conflicts not the document |
| Planner.MergeInSteps | cli/favorites_document.py:252-282 | merging d1 and d2 at once is merging d1 and then d2: same document, same conflicts and skips |
| Planner.MergeIsIdempotent | cli/favorites_document.py:252-282 | merging the same inputs a second time, conflicting ones included, gives the same document and the same conflicts |
| Planner.PlanOrderIsIrrelevant | cli/favorites_document.py:252-282 | two plans of permuted documents have the same conflicts, and without conflicts the same document and counts |
| Planner.PlanInSteps | cli/favorites_document.py:252-282 | planning two lists of documents at once gives the document, conflicts and skips of planning the first and then the second on top |
| Planner.PlanTwice | cli/favorites_document.py:252-282 | planning the same documents again on top of the result gives the same document and conflicts, and adds and removes nothing |
| Planner.MergeKeepsSaved | cli/favorites_document.py:252-282 | a merge never drops or alters a saved scope, and its summary removes nothing |
| Planner.ReplaceHoldsOnlyIncoming | cli/favorites_document.py:252-282 | a replacement holds only incoming scopes |
| Planner.ValidateDocument | cli/favorites_document.py:200-213 | accepts exactly the documents that fit, whose scopes are valid and whose keys are distinct; the result is key-ordered with the same content |
| Planner.PlanDocuments | cli/favorites_document.py:252-282 | succeeds exactly for 1 to 64 valid inputs with a valid saved bundle whose selection together still fits the size limits, and then is the specified plan with its four-way summary; its document, conflicts and skipped duplicates are those the inputs determine without the selection |
| Registry.RealiasTwice | cli/device_registry.py:199-212 | repeating an alias change, as a resumed run does, changes nothing more |
| Registry.Session.Post | cli/device_registry.py:277-293 | a request leaves only while a durable checkpoint holds the identical request; the server may turn it away unread, refuse it, or apply it, a lost copy of it may arrive before it, and an answered one is refused exactly when it was turned away or was not acceptable at that time |
| Registry.Session.UpdateAlias | cli/device_registry.py:188-212 | in terms of folding alone: without a fault it fails exactly when two aliases fold to the name or one does and names another device; success leaves one such alias, for the device and under its old spelling, or none after a removal, and every other alias as it was |
| Registry.Session.Confirm | cli/device_registry.py:265-275 | succeeds exactly when store, generation and state agree and the alias is free, and only then changes the alias |
| Registry.Session.Finish | cli/device_registry.py:265-303 | the alias is rewritten only when receipt and inventory agree, the checkpoint goes only after that, in two separate durable steps; success means both happened, and without a fault it fails only when they disagree |
| Registry.Session.FinishApplied | cli/device_registry.py:265-329 | from the applied or renamed stage every durable state is at the same or a later stage, and undisturbed it ends complete |
| Registry.Session.Send | cli/device_registry.py:277-303 | one request, with its checkpoint on disk; the durable states only go forward; without a checkpoint left the mutation is complete exactly when the request was not refused; undisturbed it comes to its end, and success means complete |
| Registry.Session.Mutate | cli/device_registry.py:437-479 | nothing is sent while another operation is pending; the checkpoint is saved first, at most one request follows, and the durable states only go forward; at its end the mutation is back at its start exactly when the request was refused, and otherwise complete; undisturbed it comes to its end; a success means that nothing failed on the way |
| Registry.Session.Resume | cli/device_registry.py:306-329 | from any stage the durable states only go forward; a resume that ends the mutation completes it exactly when no request of it was refused; the request is repeated only when the server has no record of it, so it meets one only if a lost copy arrived in between; an undisturbed resume ends the mutation; a foreign or expired checkpoint is left alone; a success means that nothing failed on the way |
| Registry.Session.Forget | cli/device_registry.py:164-169 | drops only the local checkpoint |
| Registry.CutAndResume | cli/device_registry.py:277-329 | a run cut off at any durable state and resumed from there, to whatever end, is again one forward run |
| Registry.NothingReverts | cli/device_registry.py:277-329 | over any forward run, however often cut and resumed, the server's change and then the alias change are never taken back, the alias changes only in a mutation that completes and after the server, the checkpoint stays identical until the end, and the end is left no more |
| Registry.Persevere | cli/device_registry.py:306-329 | resuming any number of times, at any times, each time disturbed anywhere: the whole run is forward and every request repeats the checkpointed one; when no checkpoint is left the mutation is complete if and only if the last attempt's request was not refused; if it was, nothing was applied, or the operation was on record because a copy lost earlier had arrived |
| Registry.GivenUpUnapplied | cli/device_registry.py:286-289 | a run whose first request is lost and whose repeated one is turned away, by a rate limit or after a pairing expired: the checkpoint is gone, nothing was applied, and the end is not the one of the uninterrupted mutation |
| Registry.EndsCompared | cli/device_registry.py:286-302 | an end with nothing applied always differs from the complete one; an end overtaken by a lost copy equals it exactly when no alias had to change |
| AppUpdate.WalkPlaces | cli/app_update.py:286-343 | in every conversation: status first, prepare only second, nothing but status after an install |
| AppUpdate.InstallAtMostOnce | cli/app_update.py:320-343 | install is requested at most once |
| AppUpdate.InstallsMeans | cli/app_update.py:320-343 | a conversation has reached the watching stage exactly when some call of it was an install |
| AppUpdate.InstallSeesOlder | cli/app_update.py:289-320 | in every conversation begun with a given first report each install is requested against a report of an older installed code, if and only if that first report leads to no further question before the install |
| AppUpdate.InstallOverNewer | cli/app_update.py:301-320 | whenever it does lead to one, and whatever installed code the later report shows, the install is requested once that report describes the staged package |
| AppUpdate.Client.Send | cli/app_update.py:270-282 | no call after the deadline; each is given the original timeout or the time left, whichever is less; a status follows a reported call after a second at least |
| AppUpdate.Client.Watch | cli/app_update.py:321-345 | after an install request only statuses are sent, and only while the last report leaves the outcome open; "verified" needs the target code, hash and version in the last reply |
| AppUpdate.Client.Decide | cli/app_update.py:303-321 | an install is allowed exactly for a staged package that matches in hash, code and version and may proceed, and never under prepare-only |
| AppUpdate.VersionDescribes | cli/app_update.py:309-311 | a report describes the package when hash and code are equal and the tag is one character before the version |
| AppUpdate.Client.Stage | cli/app_update.py:286-319 | status, release and installed-code checks, preparation and download: it lets an install through only when justified, and every early end has its reason in the last reply |
| AppUpdate.Client.InstallStaged | cli/app_update.py:320-345 | the one install request; "unconfirmed" only when the next status could not be had, with the last report seen |
| AppUpdate.Client.Update | cli/app_update.py:265-347 | every call of every run is justified by the replies before it and within the deadline; every message and every error is explained by the last reply, the release or the time; the run is one of the conversations the install lemmas speak about; the client timeout is restored on every exit |
| DevicePower.MutationsAscend | cli/device_power.py:366-426 | in every allowed trace the changing commands are distinct and come in the order power service, tap, key |
| DevicePower.SentAtMostOnce | cli/device_power.py:366-426 | each kind of change is sent at most once, and the power service never after a tap or key |
| DevicePower.Adb.Run | cli/device_power.py:102-145 | a command is started at most once; failures before the start are never marked, failures after it are marked as the caller asked |
| DevicePower.Adb.ReadDialog | cli/device_power.py:345-363 | a dialog is reported exactly when the next three answers are a recognised layout between two equal windows, and reading changes nothing |
| DevicePower.ReadingExactly | cli/device_power.py:345-363 | exactly which three answers read as one dialog, and as which |
| DevicePower.InspectionFails | cli/device_power.py:262-279 | what an inspection that fails fails with |
| DevicePower.Adb.TapAndLook | cli/device_power.py:373-388 | after an unfocused button is seen, the tap leads on to the key exactly when the next four answers acknowledge it and show the same window with focus |
| DevicePower.Adb.Confirm | cli/device_power.py:366-393 | a tap only on a recognised unfocused button, a key only on a focused one, in the same window if after a tap; success means the change was acknowledged; a failure is marked exactly when something was sent, except after focus was verified and before the key started, and that exception happens exactly for the answers `Strands` describes; every failure has its cause in the device's next step or last answer |
| DevicePower.Adb.PowerDown | cli/device_power.py:406-426 | the power service is asked once, with any number of dialog checks while it runs |
| DevicePower.Adb.Settle | cli/device_power.py:416-426 | a denied request ends as a permission denial that is not marked, whatever else the answer holds; otherwise the outcome means what it says |
| DevicePower.Adb.Shutdown | cli/device_power.py:400-426 | in every world: the trace holds exactly the world's answers and only allowed commands, each outcome means what it says, and every failure has its cause; besides the service's own denial a failure after a change is unmarked if and only if the world is one that `Strands` describes: the tap on the dialog found first was acknowledged, focus was seen, and the key press never started |
| DevicePower.TappedButUnmarked | cli/device_power.py:366-393 | a run in which the confirmation was tapped and the reported failure is not marked as uncertain |

## Left out

- Locks, permissions, fsync, inode identity and same-user writers: primitives are atomic and the private lock is held; re-reads that only a noncooperating writer could fail (byte and identity comparisons in reclaiming and replacing) are omitted.
- Text and wire parsing: JSON text, regular expressions, timestamps, UUID and digest syntax, XML layouts and window dumps are already parsed, or recognised by a given function.
- Error texts and codes are modelled only where a property speaks about them; in `Receipts` a reply of an unknown shape is simply invalid.
- Registry.Session.Resume: the server's choice of a new generation is a given function of the time, its devices and the request, operation ids are fresh, and no other administrator writes in between; what a lost copy of the request does after its checkpoint is gone is not followed.
- AppUpdate.Client.Update: choosing and downloading the release metadata is not part of this model; the release is given.
- DevicePower: inspection and binding of a device before a shutdown, and interrupts that arrive between two commands, are not part of this model.
- Receipts: the pairing, provisioning, catalogue, admission and recovery requests, and envelope size limits, are not part of this model.
- The archive search behind `cli/epg_search.py:252-271` (`programme_search` is not part of this model), progress output and HTTP.
- Per-field validation of scopes, locators and references in `cli/favorites_document.py:94-198`, which is a given predicate of a scope.
- Pairing, credential and prepare parsing in `cli/device_registry.py`, and the global variants in `cli/global_favorites_*.py`, which reuse the same stores.
- Floating point rounding: seconds are reals.
