# Evidence to verdict: a verified model

AgenTrust Telemetry collects normalized events of an agent run into an append-only hash chain,
checks the chain again from scratch, and derives from the events what a TRACE record says about
the run. A second reader, written in Rust, answers questions about exported spans without relying
on the order in which they arrived. This project models those two paths and the parts they stand
on, and proves what they promise.

Run `dafny verify dfyconfig.toml` to check everything.

## How it is organised

| file | models |
|---|---|
| `Prelude`, `Sorting`, `FiniteSums`, `Bytes` | sequences, stable sorting, sums over maps, hexadecimal and big-endian bytes |
| `Events` | the events that the schemas admit |
| `EvidenceChain` | entry digests, the chain check, the builder, tamper evidence |
| `Ledger` | one run's evidence as a value: what a call does to it |
| `Objects` | the interpreter's heap: what a reference shows, `deepcopy` with its memo, what outside code can do with the references it holds |
| `Accumulator` | `EvidenceAccumulator` as an object: fields, defensive copies, the durable callback, copy isolation over whole runs |
| `Concurrency`, `ConcurrencyCalls` | threads that call the accumulator in any interleaving, callbacks that call back; which calls the evidence comes from, and that unobstructed calls take effect |
| `Appraisal`, `AppraisalProperties`, `AppraisalMeaning` | the nested loops of the appraisal and its rules; order and severity; the documented status on event fields, and what a status promises |
| `Finalizer`, `FinalizerMeaning` | guards and content of the TRACE record; what each member says about the snapshot |
| `JsonShape` | the explicit-stack walk over a possibly cyclic object graph and the privacy walk behind it |
| `TraceReader`, `TraceReaderOrder`, `TraceReaderEffects`, `TraceReaderAnswers`, `TraceReaderMeaning` | the span reader; arrival order; more receipts; what answers promise; what they say in terms of span attributes |
| `Printing`, `ReceiptSigning` | the ASCII JSON printer, its inverse, the signing input |
| `ReportTexts` | the JSON texts the report is sorted by, and the order theorems for them |
| `SafeInteger`, `Usage` | sums of doubles under one final check; usage leaves and rollups |
| `DurableLog` | the idempotent log behind the callback, under faults |
| `AgtApproval`, `Client` | AGT approval events and their appraisal; acceptance before projection, batches |

SHA-256, the RFC 8785 canonicalizer, UUIDv5, `str.lower` and what a JSON Schema accepts are
parameters of the model: no theorem assumes that SHA-256 is injective. Where a theorem needs more
of a parameter it says so (`CanonicalInjective`: canonical text determines the event). The reader's
theorems are stated for any faithful printing of the sort keys; `ReportTexts` defines the texts the
program prints, shows them faithful and restates the order theorems without a hypothesis.

## Where the code and its documentation differ

* `docs/trace-finalization.md` line 48 says that any `deny` or `error` decision makes a run
  contraindicated. The code keeps decisions in a dictionary by event id, so a later decision with
  the same id hides an earlier denial, and `_verify_chain` does not demand distinct ids.
  `FinalizedDespiteDenial` gives snapshots with a denial that every guard lets through and that are
  finalized as affirming, `DenialHeardIffItStands` the exact condition, and
  `HandedOutIsConsistent` shows that snapshots from an accumulator never meet the difference.
* The same page says that an approval which disagrees with an action contradicts it. In the code a
  second approval that is bound and agrees outweighs the disagreeing one
  (`AgreeingApprovalOutweighs` gives the run, `DisagreementHeardIffNotOutweighed` the exact
  condition). `ActionContradicted` follows the code.
* The docstring of `EvidenceAccumulator` says that after a failed callback callers can retry the
  same event. With the example store a retry is not just possible but needed: `StepRefinesIff` says
  which next steps keep log and entries together, and `RetryingIsWhatKeepsItSafe` that only a retry
  does so whatever fault comes.
* The reader's tests say that arrival order must not change any answer. That holds of the answers
  as a whole. The sorted list can differ when two turns carry the same turn id but disagree about
  their conversation; `AnswerListOrderFree` says exactly when.

## Model

| member | source | states |
|---|---|---|
| EvidenceChain.VerifyChain | src/agentrust_telemetry/trace_adapter.py:141-176 | the loop accepts exactly the snapshots whose entries form one chain ending in the chain digest; a refusal names the first entry that breaks it |
| EvidenceChain.ExtendChain | src/agentrust_telemetry/evidence.py:121-134 | an entry digested over its position and its predecessor's digest keeps a chain a chain |
| EvidenceChain.FirstDigest | src/agentrust_telemetry/evidence.py:190-194 | the first digest covers forty zero bytes, 32 for the predecessor and eight for the position, and then the canonical bytes |
| EvidenceChain.LaterDigest | src/agentrust_telemetry/evidence.py:190-194 | every later digest covers the 32 bytes its predecessor's digest spells out, eight bytes of position, and the canonical bytes |
| EvidenceChain.VerifiedIffRebuilt | src/agentrust_telemetry/trace_adapter.py:141-176 | checker and builder agree: a snapshot verifies if and only if rebuilding the chain from its events gives its entries |
| EvidenceChain.MaterialParts | src/agentrust_telemetry/evidence.py:190-194 | equal hash materials have equal previous bytes, equal sequence and equal canonical bytes |
| EvidenceChain.TamperEvident | src/agentrust_telemetry/trace_adapter.py:141-176 | two chains with one final digest have the same length and canonical bytes everywhere, or two different inputs with one SHA-256 value are computed from them |
| EvidenceChain.AlteredSnapshotCollides | src/agentrust_telemetry/trace_adapter.py:141-176 | any edited, dropped, inserted or reordered entry that still verifies under the same digest exhibits a collision |
| Bytes.HexRoundTrip | src/agentrust_telemetry/evidence.py:192-194 | a stored digest spells out the bytes it was printed from |
| Bytes.BigEndian64Injective | src/agentrust_telemetry/evidence.py:193 | the eight-byte sequence number determines the sequence |
| Bytes.BigEndianAt | src/agentrust_telemetry/evidence.py:193 | the position is written most significant byte first |
| Bytes.HexLowerCase | src/agentrust_telemetry/evidence.py:194 | digests are lower-case hexadecimal |
| Ledger.CommitKeepsSound | src/agentrust_telemetry/evidence.py:109-142 | committing an admitted event keeps one chain, unique ids, an exact id set and the size limit |
| Ledger.AdmittedIff | src/agentrust_telemetry/evidence.py:109-127 | an event is admitted exactly when the run is open and has room, no entry has its id, and it can be canonicalized; the digest before is never the reason to refuse |
| Ledger.CommitAndSealMean | src/agentrust_telemetry/evidence.py:142-162 | field by field, what a commit and a seal change and that they change nothing else |
| Ledger.SnapshotVerifies | src/agentrust_telemetry/evidence.py:178-187 | every snapshot of a sound ledger passes the finalizer's chain check |
| Accumulator.NewAccumulator | src/agentrust_telemetry/evidence.py:61-89 | an empty run id or a limit below one is an error; otherwise a new accumulator is empty, open and sound |
| Objects.FitsIffGood | src/agentrust_telemetry/validation.py:45-62 | the check on the object graph is a check on the unfolded value: string keys, finite floats, nothing beyond the depth |
| Objects.Memory.CopyInto | src/agentrust_telemetry/evidence.py:197-204 | a recursive copy with a memo keeps new objects among themselves and equal to what they are copies of, sharing included |
| Objects.Memory.DeepCopy | src/agentrust_telemetry/evidence.py:99 | the copy shows the same value to every depth, consists of new objects only, and leaves every old object as it was |
| Objects.CopiesAreDisjoint | src/agentrust_telemetry/evidence.py:197-204 | what a copy reaches and what any older object reaches have no object in common, nested dictionaries included |
| Objects.NothingKeptIsReachable | src/agentrust_telemetry/evidence.py:197-204 | no path from a reference that outside code holds ends in a kept object |
| Objects.Memory.Act | src/agentrust_telemetry/evidence.py:131 | any sequence of creating, changing and looking by outside code leaves the kept objects alone and learns none of them |
| Accumulator.EvidenceAccumulator.Copy | src/agentrust_telemetry/evidence.py:197-204 | a copied event shows the same value in a part of the heap that may be kept or handed out |
| Accumulator.EvidenceAccumulator.CheckAndCopy | src/agentrust_telemetry/evidence.py:98-101 | invalid events and events of other runs are refused; otherwise the copy shows what the event showed |
| Accumulator.EvidenceAccumulator.Append | src/agentrust_telemetry/evidence.py:96-145 | which error for which check; a failed append changes nothing observable; a successful one commits the value the event had on entry and returns an entry showing it, whatever outside code did during the callback |
| Accumulator.EvidenceAccumulator.AppendLocked | src/agentrust_telemetry/evidence.py:106-145 | with the lock held: the entry is kept only after the callback acknowledged it, and nothing outside leads to what is kept |
| Accumulator.EvidenceAccumulator.Prepare | src/agentrust_telemetry/evidence.py:109-127 | the checks in their order, and the entry they allow |
| Accumulator.EvidenceAccumulator.AskCallback | src/agentrust_telemetry/evidence.py:129-140 | the callback gets a copy of the entry that is not kept, may do anything with all it knows, and cannot change the entry; only True acknowledges |
| Accumulator.EvidenceAccumulator.RunCallback | src/agentrust_telemetry/evidence.py:131 | arbitrary code that knows its argument and everything handed out before changes no retained object |
| Accumulator.EvidenceAccumulator.Keep | src/agentrust_telemetry/evidence.py:142-144 | one copy is retained and another, which outside code knows, is returned |
| Accumulator.EvidenceAccumulator.Seal | src/agentrust_telemetry/evidence.py:148-164 | sealing fails exactly when reentrant or sealed already; otherwise it sets the seal and the given assessment, which the snapshot shows, and leaves entries and ids alone |
| Accumulator.EvidenceAccumulator.TakeSnapshot | src/agentrust_telemetry/evidence.py:167-187 | a snapshot shows the committed entries in objects of its own and verifies; its run id, profile, seal, chain digest and completeness (unknown until sealed), field by field |
| Accumulator.OneHappening | src/agentrust_telemetry/evidence.py:96-187 | of all that can happen only an append adds an entry, and then the one its event called for when it was made |
| Accumulator.AnyRun | src/agentrust_telemetry/evidence.py:96-204 | copy isolation over any run of append, seal and snapshot calls mixed with arbitrary outside changes: accepted entries are only added, each still shows the value it was accepted with, a snapshot shows exactly them, and no path from outside reaches a retained object |
| Concurrency.StepKeepsInvariant | src/agentrust_telemetry/evidence.py:96-187 | every step of every thread keeps the invariant of lock, owner, half-made commits and snapshots |
| Concurrency.RunKeepsInvariant | src/agentrust_telemetry/evidence.py:96-187 | so does every schedule |
| Concurrency.NoSelfDeadlock | src/agentrust_telemetry/evidence.py:102-107 | in every reachable state a thread that waits for the lock does not hold it, and either it or the holder can move |
| Concurrency.OneMutation | src/agentrust_telemetry/evidence.py:105-145 | at most one thread is inside a mutation, and only it is the owner |
| Concurrency.AlwaysSound | src/agentrust_telemetry/evidence.py:111-144 | at every moment the entries are one chain with unique ids within the limit, and the callback confirmed exactly them, or one more that is about to be committed |
| Concurrency.SnapshotsAgree | src/agentrust_telemetry/evidence.py:167-187 | every snapshot ever handed out verifies; unsealed ones report unknown and are prefixes of a sealed one; all sealed ones are the same |
| Concurrency.SealedIsFinal | src/agentrust_telemetry/evidence.py:148-164 | once a sealed snapshot is out, no continuation of the run changes the evidence |
| Concurrency.NestedStep | src/agentrust_telemetry/evidence.py:102-103 | a call made from inside the callback changes nothing; snapshot shows what is committed |
| ConcurrencyCalls.EveryEntryWasBrought | src/agentrust_telemetry/evidence.py:96-145 | in every run each entry is of a valid event of the run that some thread asked to append |
| ConcurrencyCalls.CompletenessWasAsserted | src/agentrust_telemetry/evidence.py:148-164 | in every run the completeness a sealed snapshot shows is the assessment of a seal call that was begun |
| ConcurrencyCalls.AppendTakesEffect | src/agentrust_telemetry/evidence.py:96-145 | an admissible append that nothing obstructs, and that the callback confirms if there is one, adds its entry and releases the lock |
| ConcurrencyCalls.SealTakesEffect | src/agentrust_telemetry/evidence.py:148-164 | a seal that nothing obstructs seals the run, hands out the sealed snapshot and releases the lock |
| ConcurrencyCalls.SnapshotTakesEffect | src/agentrust_telemetry/evidence.py:167-176 | a snapshot that nothing obstructs shows the committed entries and changes nothing |
| ConcurrencyCalls.CallsFromCallback | src/agentrust_telemetry/evidence.py:102-103 | from inside the callback a snapshot is answered at once and a mutation is refused |
| Appraisal.BoundApprovals | src/agentrust_telemetry/trace_adapter.py:338-373 | the nested loops return exactly the approvals that some request binds on seven fields inside its window |
| Appraisal.CompareCandidates | src/agentrust_telemetry/trace_adapter.py:301-321 | both flags, in terms of all candidate approvals of the action |
| Appraisal.ActionApprovalBinding | src/agentrust_telemetry/trace_adapter.py:263-326 | contradicted and bound in matching if-and-only-if forms, despite the early return |
| Appraisal.Appraise | src/agentrust_telemetry/trace_adapter.py:225-257 | the four statuses are the declarative verdict on the events the dictionary keeps, and on all events when decisions are consistent |
| Appraisal.DecisionsMean | src/agentrust_telemetry/trace_adapter.py:226-230 | the dictionary says what the last decision of each id says |
| Appraisal.ConsistentVerdict | src/agentrust_telemetry/trace_adapter.py:225-257 | for consistent decisions nothing the dictionary forgets matters |
| AppraisalProperties.DecisionsOrderFree | src/agentrust_telemetry/trace_adapter.py:226-230 | the dictionary is the same for every order exactly when no two decisions share an id and differ |
| AppraisalProperties.AppraisalOrderFree | src/agentrust_telemetry/trace_adapter.py:225-257 | the appraisal is the same under every permutation of consistent events |
| AppraisalProperties.DisagreementHeardIffNotOutweighed | src/agentrust_telemetry/trace_adapter.py:303-325 | a gated action with a disagreeing approval condemns the run exactly when no agreeing, bound approval outweighs it, unless something else condemns the run |
| AppraisalProperties.DenialHeardIffItStands | src/agentrust_telemetry/trace_adapter.py:226-241 | a run with a denial is contraindicated exactly when some refusal is not replaced, unless something else condemns it |
| AppraisalProperties.AgreeingApprovalOutweighs | src/agentrust_telemetry/trace_adapter.py:303-325 | a run whose action has both a disagreeing approval and a bound, agreeing one is affirmed |
| AppraisalProperties.SeverityNeverFalls | src/agentrust_telemetry/trace_adapter.py:225-257 | appending an event with a fresh id, other than a request or an approval, never lowers none < affirming < warning < contraindicated |
| AppraisalProperties.MoreEventsKeepSatisfied | src/agentrust_telemetry/trace_adapter.py:301-321 | more events never un-satisfy an action or reopen a challenge |
| AppraisalProperties.RequestLowersSeverity | src/agentrust_telemetry/trace_adapter.py:338-373 | why requests are excepted: one can bind an approval recorded before it |
| AppraisalMeaning.AppraisalIsDocumented | src/agentrust_telemetry/trace_adapter.py:225-257 | the verdict is the status that the documented rules give on the event fields, the last decision of each id standing for all of them |
| AppraisalMeaning.AffirmedActionWasApproved | src/agentrust_telemetry/trace_adapter.py:263-326 | in an affirmed run every action that ran under an approval id has an approval with that id, its digest and no other policy event, that repeats its request, was given inside its window and no later than the action |
| AppraisalMeaning.AffirmedChallengeWasApproved | src/agentrust_telemetry/trace_adapter.py:263-326 | the same for actions that name only a challenged policy event |
| AppraisalMeaning.WrongApprovalCondemns | src/agentrust_telemetry/trace_adapter.py:303-324 | an action whose approvals all carry another digest or policy event or a later time makes the run contraindicated |
| AppraisalMeaning.WrongApprovalOfChallengeCondemns | src/agentrust_telemetry/trace_adapter.py:303-324 | the same for actions that name only a challenged policy event |
| AppraisalMeaning.UnapprovedActionWarns | src/agentrust_telemetry/trace_adapter.py:318-326 | an action that needs an approval and was given none leaves at best a warning |
| Finalizer.PolicyBinding | src/agentrust_telemetry/trace_adapter.py:179-203 | accepted exactly when decisions exist and all carry one supported bundle digest and one mode; then every decision is bound to the result |
| Finalizer.HighestDataClass | src/agentrust_telemetry/trace_adapter.py:206-222 | accepted exactly when flows exist and all are ranked in the configured taxonomy; the result is observed and no observed class outranks it |
| Finalizer.LatestTime | src/agentrust_telemetry/trace_adapter.py:53 | the issue time is attained and is an upper bound |
| Finalizer.FinalizeTrace | src/agentrust_telemetry/trace_adapter.py:36-138 | a record is made exactly when guards, chain and derivations allow one, and then it is the one they determine |
| FinalizerMeaning.FinalizedIff | src/agentrust_telemetry/trace_adapter.py:111-138 | a record exists exactly for sealed, complete, intact, non-empty evidence with a key and a usable configuration that holds decisions under one sha256 or sha384 bundle and one mode, and ranked data flows of one taxonomy |
| FinalizerMeaning.TranscriptMeans | src/agentrust_telemetry/trace_adapter.py:376-388 | the transcript is absent exactly when no action was executed; otherwise it counts the executed actions and hashes the list of exactly their positions and events, in order |
| FinalizerMeaning.PolicyMeans | src/agentrust_telemetry/trace_adapter.py:179-203 | the bundle text and the mapped mode are those of every decision |
| FinalizerMeaning.DataClassMeans | src/agentrust_telemetry/trace_adapter.py:206-222 | the data class is observed, and every observed one stands no higher in the configured order |
| FinalizerMeaning.RecordMeans | src/agentrust_telemetry/trace_adapter.py:36-108 | measurement, data class, and the time of the latest event in seconds, from the entries |
| FinalizerMeaning.RecordAppraisal | src/agentrust_telemetry/trace_adapter.py:49-53 | the status of the record is the documented status of its events |
| Finalizer.HiddenDenialVerdict | src/agentrust_telemetry/trace_adapter.py:226-241 | of two decisions with one id the later counts: one order is affirming, the other contraindicated |
| Finalizer.FinalizedDespiteDenial | src/agentrust_telemetry/trace_adapter.py:36-138 | a verified, sealed, complete snapshot that holds a denial and is finalized as affirming |
| Finalizer.MeasurementDeterminesRecord | src/agentrust_telemetry/trace_adapter.py:67-70 | records with one measurement are equal, or their snapshots contain a SHA-256 collision |
| Finalizer.RecordOrderFree | src/agentrust_telemetry/trace_adapter.py:48-53 | policy binding, data class, issue time and appraisal are the same for every order of acceptance |
| Finalizer.PolicyBindingOrderFree | src/agentrust_telemetry/trace_adapter.py:179-203 | result and error alike do not depend on event order |
| Finalizer.HighestDataClassOrderFree | src/agentrust_telemetry/trace_adapter.py:206-222 | result and error alike do not depend on event order |
| Finalizer.HandedOutIsConsistent | src/agentrust_telemetry/evidence.py:167-187 | snapshots of any interleaving verify and have consistent decisions, so the order theorems apply to them |
| JsonShape.Walk | src/agentrust_telemetry/validation.py:45-62 | terminates on every finite object graph, cyclic or not; None exactly when every path is within the limit and meets only string keys and finite floats; otherwise the path it reports is at fault |
| JsonShape.JsonShapeError | src/agentrust_telemetry/validation.py:42-62 | the same with the limit 32 |
| JsonShape.CleanMeans | src/agentrust_telemetry/validation.py:51-61 | what the walk accepts has string keys and finite floats wherever a path leads |
| JsonShape.PassedIsAcyclic | src/agentrust_telemetry/validation.py:45-62 | nothing reachable from a value that passed contains itself |
| JsonShape.ProhibitedPaths | src/agentrust_telemetry/validation.py:65-76 | the recursion ends within the bound the shape check established and returns the texts in traversal order |
| JsonShape.OccurrencesExact | src/agentrust_telemetry/validation.py:65-76 | each path to a prohibited key occurs once, and nothing else does |
| JsonShape.OccursIffFound | src/agentrust_telemetry/validation.py:65-76 | the descent reports exactly the paths that lead to an object and then to a member whose key, in lower case, is prohibited |
| JsonShape.FindingsMean | src/agentrust_telemetry/validation.py:65-76 | the findings are the texts of those paths, and nothing else |
| JsonShape.CaseDoesNotMatter | src/agentrust_telemetry/validation.py:70 | objects that differ only in the case of keys have findings at the same paths |
| JsonShape.RenderLast | src/agentrust_telemetry/validation.py:65-76 | the text of a member or item is that of its container with `.key` or `[index]` after it |
| JsonShape.DecimalReads | src/agentrust_telemetry/validation.py:74-75 | an index is printed in decimal without leading zeros |
| JsonShape.TextsRender | src/agentrust_telemetry/validation.py:65-76 | the reported texts are the rendered occurrence paths |
| JsonShape.CheckPrivacy | src/agentrust_telemetry/validation.py:108-124 | both walks together: a value within depth 32 gets a finding exactly when some path leads to a key that is prohibited in lower case, and every such path is among the findings |
| TraceReader.Interpret | interop/aaif-trace-model/src/lib.rs:151-268 | the loops compute the report that the order and meaning theorems are about, contract name and options included |
| TraceReader.Intake | interop/aaif-trace-model/src/lib.rs:156-168 | spans by kind in arrival order, with every loss and every attribute not used |
| TraceReader.EffectsFor | interop/aaif-trace-model/src/lib.rs:270-334 | refused joins, and the state, effects, gaps, conflicts and evidence of an allowed one, every list in the order the source gives it |
| TraceReader.GroupReceipts | interop/aaif-trace-model/src/lib.rs:293-305 | every group holds exactly the deliveries of its scoped receipt id; the rest are pushed as gaps and evidence |
| TraceReader.JudgeDeliveries | interop/aaif-trace-model/src/lib.rs:308-321 | disagreement exactly when two deliveries differ; otherwise the ticket they agree on |
| TraceReader.CollectGroups | interop/aaif-trace-model/src/lib.rs:306-323 | effects, conflicts, ticket gaps and places of all groups, in the order of their keys |
| TraceReader.AddGroup | interop/aaif-trace-model/src/lib.rs:307-322 | what one group adds to which list |
| TraceReader.JoinEffects | interop/aaif-trace-model/src/lib.rs:293-333 | the lists as they are found, sorted and without repetitions |
| TraceReader.TurnAnswers | interop/aaif-trace-model/src/lib.rs:192-212 | continuity and call answers for every turn, and the losses of its method lookups |
| TraceReader.AnswerExecutions | interop/aaif-trace-model/src/lib.rs:224-245 | approval and effects answers for every execution, and the losses of its method lookups |
| TraceReaderOrder.EffectsOrderFree | interop/aaif-trace-model/src/lib.rs:270-334 | the order of receipts changes nothing in an answer: its sorted lists are the same lists |
| TraceReaderOrder.FoundOrderFree | interop/aaif-trace-model/src/lib.rs:311-330 | gaps and evidence are found in an order that depends on arrival, and sorting forgets it |
| TraceReaderOrder.AnswersPermute | interop/aaif-trace-model/src/lib.rs:189-254 | every permutation of the spans gives the same multiset of answers |
| TraceReaderOrder.ReportOrderFree | interop/aaif-trace-model/src/lib.rs:256-268 | and identical lists of losses and unused attributes |
| TraceReaderOrder.AnswerListOrderFree | interop/aaif-trace-model/src/lib.rs:256 | the stripped answer list is the same for every order if and only if turns with one id agree about continuity |
| TraceReaderOrder.OneAnswerPerSubject | interop/aaif-trace-model/src/lib.rs:256 | ties under the sort key are equal answers, except for turns that disagree |
| TraceReaderOrder.SwapShows | interop/aaif-trace-model/src/lib.rs:192-204 | swapping two such turns changes the list |
| TraceReaderEffects.MoreReceiptsNeverLower | interop/aaif-trace-model/src/lib.rs:328-330 | whatever receipts are added, the state never falls in unknown < established < conflict |
| TraceReaderEffects.RepeatedDeliveryChangesNothing | interop/aaif-trace-model/src/lib.rs:306-330 | repeated identical deliveries leave the listed effects, the conflicts and the state unchanged |
| TraceReaderEffects.LongerReportNeverLowers | interop/aaif-trace-model/src/lib.rs:151-268 | add receipt spans to an export, in any order: the report of the longer one says no less about any execution |
| TraceReaderEffects.ReportWithRepetitions | interop/aaif-trace-model/src/lib.rs:151-268 | if what is added only repeats receipts, from whatever places, both reports list the same effects and conflicts and say the same |
| TraceReaderEffects.EffectsMean | interop/aaif-trace-model/src/lib.rs:306-325 | an effect lists a receipt exactly when its deliveries agree on that ticket |
| TraceReaderEffects.OneMoreCopy | interop/aaif-trace-model/src/lib.rs:293-305 | a copy of a receipt read from anywhere is such a repetition |
| TraceReaderEffects.EveryCandidateCounted | interop/aaif-trace-model/src/lib.rs:293-323 | deliveries in effects, conflicts, ticketless groups, unresolved scopes and missing ids add up to the candidates |
| TraceReaderAnswers.AnswersMean | interop/aaif-trace-model/src/lib.rs:172-187 | in every report: established needs a recognized method, a conflict is listed, unknown names a gap |
| TraceReaderAnswers.NoReceiptIsLost | interop/aaif-trace-model/src/lib.rs:246-254 | every receipt is reported as uncorrelated or is a candidate of some execution's answer |
| TraceReaderAnswers.CandidatesAreEvidence | interop/aaif-trace-model/src/lib.rs:278-330 | once joins are allowed, the evidence is exactly the places of the execution and its candidates, each once |
| TraceReaderAnswers.LossesListedOnce | interop/aaif-trace-model/src/lib.rs:257-258 | sorting and removing equal neighbours lists every loss exactly once |
| TraceReaderAnswers.UnusableDefaultIsReported | interop/aaif-trace-model/src/lib.rs:172-187 | for R1, R5 and R6 a default that names no known method is a loss for every record that asks, and never a fallback |
| TraceReaderMeaning.KindsMean | interop/aaif-trace-model/src/lib.rs:123-135 | what name and attributes make a span a receipt, an execution, a proposal or a turn |
| TraceReaderMeaning.TextAttribute | interop/aaif-trace-model/src/lib.rs:83-85 | a string attribute is what the item of that name holds, if it holds a string |
| TraceReaderMeaning.SpansAreAnswered | interop/aaif-trace-model/src/lib.rs:189-254 | every turn, proposal and execution is asked about |
| TraceReaderMeaning.AnswersAreAboutSpans | interop/aaif-trace-model/src/lib.rs:189-254 | every answer is about an exported span of the kind its query asks about |
| TraceReaderMeaning.EffectsListed | interop/aaif-trace-model/src/lib.rs:293-325 | an effect lists a receipt exactly when the service of that name exported and issued it for the action, all its deliveries carry the same attributes, and they name the ticket |
| TraceReaderMeaning.ConflictsListed | interop/aaif-trace-model/src/lib.rs:306-316 | a conflict is listed exactly for the receipts, so issued, of which two deliveries differ |
| TraceReaderMeaning.ConflictPlaces | interop/aaif-trace-model/src/lib.rs:310-314 | a conflict shows the places of all deliveries of its receipt |
| TraceReaderMeaning.EffectsInOrder | interop/aaif-trace-model/src/lib.rs:323-325 | effects are listed by scope and ticket, each pair once |
| TraceReaderMeaning.GapsAndEvidenceInOrder | interop/aaif-trace-model/src/lib.rs:330 | gaps are listed by name and evidence by place |
| TraceReaderMeaning.StateFollows | interop/aaif-trace-model/src/lib.rs:326-333 | conflict, established and unknown follow from what is listed; the correlation names the declared method |
| TraceReaderMeaning.GapsListed | interop/aaif-trace-model/src/lib.rs:293-330 | each gap is named exactly when it exists: a receipt whose service is missing or not the one that exported it, one without an id, one without a ticket, no effect at all |
| TraceReaderMeaning.EvidenceListed | interop/aaif-trace-model/src/lib.rs:276-330 | the evidence is the place of the execution and of every receipt of its action, each once |
| TraceReaderMeaning.UnjoinedMeans | interop/aaif-trace-model/src/lib.rs:278-291 | without a recognized R6 method or with more than one scope nothing is joined, and the answer says which |
| TraceReaderMeaning.ContinuityMeans | interop/aaif-trace-model/src/lib.rs:192-204 | continuity is established exactly when the turn names a conversation and R1 has a recognized default |
| TraceReaderMeaning.ApprovalMeans | interop/aaif-trace-model/src/lib.rs:229-238 | the proposal is shown exactly when the execution names an action, R5 has a recognized default and a proposal of that action was exported |
| TraceReaderMeaning.NeverEstablished | interop/aaif-trace-model/src/lib.rs:206-220 | calls and the origin of proposals are never established, and which subjects they are about |
| TraceReaderMeaning.StrayReported | interop/aaif-trace-model/src/lib.rs:246-254 | exactly the receipts whose action nobody executed are reported as uncorrelated |
| TraceReaderMeaning.SpanLossesReported | interop/aaif-trace-model/src/lib.rs:156-168 | a loss is reported exactly for spans of no kind and for attributes that are neither used nor the producer's claim |
| TraceReaderMeaning.MethodLossesReported | interop/aaif-trace-model/src/lib.rs:174-187 | a relationship without a recognized default is a loss exactly where a record asks for it |
| TraceReaderMeaning.MethodLossQuotes | interop/aaif-trace-model/src/lib.rs:174-187 | such a loss quotes the declared default, or says that none was declared |
| TraceReaderMeaning.ClaimsListed | interop/aaif-trace-model/src/lib.rs:161-164 | the producer's claim of verification, and nothing else, is listed as not used |
| ReportTexts.TextInjective | interop/aaif-trace-model/src/lib.rs:256-259 | compact JSON of nested objects and strings shows which value it prints |
| ReportTexts.TheTextsAreFaithful | interop/aaif-trace-model/src/lib.rs:256-259 | the texts of queries, subjects, losses and unused attributes tell them apart |
| ReportTexts.ReportsOrderFree | interop/aaif-trace-model/src/lib.rs:256-268 | with these texts: the same answers, losses and unused attributes for every order of the spans |
| ReportTexts.AnswersOrderFree | interop/aaif-trace-model/src/lib.rs:256 | with these texts: the stripped answer list is the same for every order if and only if turns with one id agree |
| ReportTexts.AnswersInOrder | interop/aaif-trace-model/src/lib.rs:256 | approvals, calls, continuity, effects, origins, uncorrelated reports, in this order, and by the text of the subject within each |
| ReportTexts.LossesInOrder | interop/aaif-trace-model/src/lib.rs:257-259 | losses and unused attributes are listed by their texts |
| ReportTexts.SubjectsLookLike | interop/aaif-trace-model/src/lib.rs:202-251 | the members of each subject, in the order of their names |
| ReceiptSigning.AsciiJsonString | interop/aaif-trace-model/src/lib.rs:353-375 | the loop prints the quoted form |
| ReceiptSigning.PrinterInvertible | interop/aaif-trace-model/src/lib.rs:353-375 | an RFC 8259 section 7 reader, surrogate pairs included, recovers every Unicode string whatever follows it |
| ReceiptSigning.PrintsAscii | interop/aaif-trace-model/src/lib.rs:353-375 | the output is ASCII |
| ReceiptSigning.SigningInput | interop/aaif-trace-model/src/lib.rs:377-386 | the joined object, or the first missing field |
| ReceiptSigning.ReceiptSigningInput | interop/aaif-trace-model/src/lib.rs:377-386 | defined exactly for receipts with all five fields |
| ReceiptSigning.SigningInputInjective | interop/aaif-trace-model/src/lib.rs:377-386 | equal signing inputs come from equal fields |
| ReceiptSigning.SignedText | interop/aaif-trace-model/src/lib.rs:377-386 | the signed text, member by member: which name goes with which field, and in which order |
| ReceiptSigning.EscapesMean | interop/aaif-trace-model/src/lib.rs:353-375 | which characters have a short escape, and that all others outside printable ASCII are lower-case \u escapes |
| ReceiptSigning.PlainText | interop/aaif-trace-model/src/lib.rs:353-375 | other ASCII text is printed as it is |
| Printing.JoinInjective | interop/aaif-trace-model/src/lib.rs:377-386 | with fixed member names the printed object determines its values |
| Sorting.SortSorts | interop/aaif-trace-model/src/lib.rs:256-259 | the sort orders by its key |
| Sorting.SortStable | interop/aaif-trace-model/src/lib.rs:256 | elements with one key keep their order |
| Sorting.SortedUnique | interop/aaif-trace-model/src/lib.rs:256-259 | where equal keys mean equal elements the sorted sequence is determined by its elements |
| Sorting.TextLeMeans | interop/aaif-trace-model/src/lib.rs:256-259 | the order of texts: at the first difference the smaller character, or the text that has ended, comes first |
| Sorting.InOrderAscends | interop/aaif-trace-model/src/lib.rs:293-307 | the keys of a map with pairs of texts as keys are visited in strictly ascending order, first component first |
| SafeInteger.OneCheckSuffices | packages/typescript/src/usage.ts:63 | with safe leaves, the rounded total is a safe integer exactly when the exact sum is at most 2^53 - 1, and then it is that sum |
| SafeInteger.TokenTotal | packages/typescript/src/usage.ts:63 | a token field is absent without observations, exact when accepted, refused otherwise |
| SafeInteger.RoundStaysLarge | packages/typescript/src/usage.ts:63 | rounding never brings a larger number back into the safe range |
| SafeInteger.NearestIsNearest | packages/typescript/src/usage.ts:63 | the rounding of the model gives a number with 53 significant bits and none is nearer |
| SafeInteger.TieGoesToEven | packages/typescript/src/usage.ts:63 | half-way cases go to the even significand (IEEE 754 section 4.3.1) |
| SafeInteger.OverflowMeans | packages/typescript/src/usage.ts:63 | a sum becomes infinite exactly when it rounds beyond (2^53 - 1) * 2^971 |
| SafeInteger.RejectedSumMayBeRounded | packages/typescript/src/usage.ts:63 | rounding does occur on a run that is then rejected |
| Usage.UsageAccumulator.Add | src/agentrust_telemetry/usage.py:112-136 | which error for which event; a leaf is kept once; an id reused with other data is refused and changes nothing |
| Usage.UsageAccumulator.Rollup | src/agentrust_telemetry/usage.py:138-190 | totals, coverage, counts, currency and sources of exactly the matching leaves; workflow id, match and currency errors |
| Usage.LeavesMean | src/agentrust_telemetry/usage.py:112-136 | after any run of adds: one leaf for each id that came with acceptable usage of a model call, and no other |
| Usage.RefusalMeans | src/agentrust_telemetry/usage.py:112-130 | which failing check is reported |
| Usage.RollupMeans | src/agentrust_telemetry/usage.py:149-164 | event count, token totals and coverage, on the leaves of the run, agent and workflow asked for |
| Usage.RollupCostMeans | src/agentrust_telemetry/usage.py:166-182 | cost coverage, currency and sources, on the same leaves |
| Usage.RollupRefused | src/agentrust_telemetry/usage.py:147-169 | exactly when a rollup is refused, and why |
| Usage.RollupTokens | src/agentrust_telemetry/usage.py:159-164 | per field: present exactly when observed, the sum of the observations, their number |
| Usage.AddsOrderFree | src/agentrust_telemetry/usage.py:112-136 | repeated and reordered adds of the same leaves give the same accumulator exactly when no two accepted leaves share an id |
| Usage.WorkflowIsSumOfAgents | src/agentrust_telemetry/usage.py:138-190 | a workflow rollup's token totals, coverage, event count and cost coverage are the sums of its agents' rollups; a field is present exactly when covered |
| Usage.AgentsRollUp | src/agentrust_telemetry/usage.py:138-190 | whenever the workflow can be rolled up, every one of its agents can |
| DurableLog.JsonlEvidenceStore.Append | examples/governed_workflow.py:98-120 | what is on disk, what is remembered and what the caller hears under each fault |
| DurableLog.AcknowledgedIsOnDisk | examples/governed_workflow.py:105-120 | True is answered only for an id that has a line on disk |
| DurableLog.CollapseMeans | examples/governed_workflow.py:98-120 | collapsing the log keeps, of every id, the line that was written first |
| DurableLog.StepRefinesIff | examples/governed_workflow.py:98-120 | an append or seal under a fault keeps the log an extension of the entries exactly when, with an entry in flight, it retries that entry, writes nothing, or is a reuse of its id that is not acknowledged |
| DurableLog.RetryingIsWhatKeepsItSafe | src/agentrust_telemetry/evidence.py:47-49 | whatever the fault, the next append is safe exactly when it retries the event in flight |
| DurableLog.RunRefinesIff | examples/governed_workflow.py:98-120 | log and entries stay together throughout a run exactly when every step of it is safe |
| DurableLog.LogRefinesChain | src/agentrust_telemetry/evidence.py:129-144 | in a safe run the log collapsed by id is the local entries plus at most one in flight, and is itself a chain |
| DurableLog.RetryCatchesUp | examples/governed_workflow.py:105-120 | an acknowledged retry makes log and entries equal again |
| AgtApproval.ResolvedInWindow | src/agentrust_telemetry/adapters/agt_approval.py:96-194 | request and resolution events agree on all seven binding fields; only outcome and expiry are left to decide |
| AgtApproval.RequestMeans | src/agentrust_telemetry/adapters/agt_approval.py:61-93 | a request event is made only where request and policy record give all five members alike, and which member of the event comes from which |
| AgtApproval.ResolutionMeans | src/agentrust_telemetry/adapters/agt_approval.py:96-153 | the same for resolutions, their four members, and never before the request |
| AgtApproval.DecisionMeans | src/agentrust_telemetry/adapters/agt_approval.py:18-58 | a decision event is a challenge, and only for records that require approval |
| AgtApproval.DigestMeans | src/agentrust_telemetry/adapters/agt_approval.py:217-222 | exactly `sha256:` and 64 lower-case hexadecimal digits is a digest |
| AgtApproval.ApprovedIsBoundIffInTime | src/agentrust_telemetry/trace_adapter.py:338-373 | an approval the adapter builds is bound exactly when resolved no later than its request expires, whatever other requests are present |
| AgtApproval.ApprovalVerdict | src/agentrust_telemetry/adapters/agt_approval.py:18-153 | decision, request and resolution appraise as affirming, warning or contraindicated by outcome and expiry alone |
| AgtApproval.ApprovedActionVerdict | src/agentrust_telemetry/trace_adapter.py:263-326 | with the approved action: contraindicated exactly when it completed before the approval |
| Client.TelemetryClient.Emit | src/agentrust_telemetry/client.py:59-113 | which error for which check, a call from inside the durable callback included; refused events leave evidence and history alone; accepted ones are committed first and then offered to every projector, whichever fail; projectors show what the event shows after the callback |
| Client.TelemetryClient.Accept | src/agentrust_telemetry/client.py:72-77 | the sink gets a copy; its verdict and its callback alone decide acceptance |
| Client.TelemetryClient.Project | src/agentrust_telemetry/client.py:79-103 | every configured projection is attempted and every failure recorded |
| Client.ResultMeans | src/agentrust_telemetry/client.py:79-113 | each flag and each error, from what its projector did |
| Client.ProjectionsMean | src/agentrust_telemetry/client.py:79-103 | each configured projector is called with what the event shows, and fails or not, whatever the others do |
| Client.ProjectedOnce | src/agentrust_telemetry/client.py:79-103 | no projector is called twice |
| Client.MismatchMeans | src/agentrust_telemetry/client.py:64-70 | an event is out of place exactly when it names another trace or span than the active ones |
| Client.EmitKeepsOrder | src/agentrust_telemetry/client.py:72-103 | over whole runs each projection follows the acceptance of its event, and each accepted event stays in the evidence |
| Client.ProjectionsKeepOrder | src/agentrust_telemetry/client.py:79-103 | whatever is projected after an acceptance of the same object keeps the order |
| Client.AcceptedFirstMeans | src/agentrust_telemetry/client.py:72-103 | the same, act by act |
| Client.EmitBatch | src/agentrust_telemetry/adapters/agt.py:67-79 | one batch extends the chain by a prefix of the normalized events: nothing if mapping fails, all on success; success exactly when every projection of every event worked |
| Client.MapBoth | src/agentrust_telemetry/adapters/agt.py:67-70 | batches are mapped in order, and the whole mapping fails where a part of it fails |

## Left out

* Signing and verifying TRACE records and receipt signatures, SHA-256, RFC 8785, UUIDv5 and JSON Schema evaluation: foreign code, parameters of the model.
* Cost amounts of a rollup: the Python and TypeScript decimal contexts and the conversion to a float; coverage, currency and sources are modelled.
* OpenTelemetry emitters, projections, propagation and context resolution, OPA, Cedar, audit and data adapters, strict JSON parsing and span flattening: field copying and library calls.
* The TypeScript twins other than the token sum: their digest comparison depends on key order, so no equality of the two packages is claimed.
* In `Objects` immutable values have cells of their own and are copied like containers: whether two of them are one object cannot be observed in a JSON value.
* Event times are naturals: canonical decimal strings stand in bijection with them. Schema-valid events are typed values, which the schema reads from the unfolded JSON value; the malformed-event error of the finalizer is not modelled.
* General deadlock freedom: a callback that blocks on another thread can still hang.
- Accumulator.EvidenceAccumulator.Append: shown from the moment the call holds the lock; waiting for it is in Concurrency, and a call that the callback makes into the same accumulator is there too, or shown here from inside (`owner == Some(me)`), not nested in one run.
- Finalizer.FinalizeTrace: which of several refusals is reported is not part of its contract.
- JsonShape.Walk: the text of the error and which of several faults is reported are not part of its contract.
- Usage.UsageAccumulator.Rollup: ends before the event factory wraps and validates the payload.
- DurableLog.JsonlEvidenceStore.Append: a line is on disk or not, torn writes and restarts are left out, and the log starts empty.
- AgtApproval.ResolvedInWindow: which of several source errors is reported first is not modelled.
- Client.TelemetryClient.Emit: changes that a span or log projector makes to the caller's own event object are left out; the metric projector gets a copy, which nothing reads afterwards.
- Client.EmitBatch: the objects of the normalized batch exist before the call; that the mapper makes them during it is left out.
