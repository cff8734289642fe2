# Verified models of the research agent's backend

The project models, in Dafny, the parts of the backend whose correctness depends on state, on
interleaving or on an algorithm, and proves what they promise for every input, every history and
every order of events.

- **Cloud API Proxy** (`Proxy*.dfy`). `submit` is several units of work with the lock released
  between them. `ProxyStore` is the in-memory store, `ProxySteps` what each unit of work does to
  it, `ProxyService` the class that does it in place, `ProxyLedger` the invariant of the store,
  `ProxyRuns` the state machine whose events interleave freely (issue, revoke, submit, mark
  RUNNING, call the adapter, settle, overwrite after a failed delivery, crash, start up), `ProxyTheorems` the steps and
  `ProxyGuarantees` the promises over all runs.
- **OpenAlex normalisation** (`AbstractText.dfy`, `AbstractIndex.dfy`, `ExactCost.dfy`,
  `StructuralShape.dfy`): whitespace of one token, the abstract rebuilt from its inverted index,
  the conversion of a decimal cost, and the value-free structural descriptor.
- **Artifact bindings** (`Bindings.dfy`, `BindingTheorems.dfy`, `PlanTheorems.dfy`,
  `LimitTheorems.dfy`): dependency bindings, owner decisions, materialisation plans, and what the
  list limit of a thousand does to them. **Promotion** (`Promotion.dfy`,
  `PromotionTheorems.dfy`): declarations derived from a progress report and their promotion.
- **Run approvals** (`Approvals.dfy`): report, supersede, approve, reject, consume.
- **Evidence lineage** (`Grounding.dfy`, `Availability.dfy`, `RevisionAccounting.dfy`).

Conventions. A hash, checksum or derived identifier is a free constructor over the content it is
computed from, or an injective function where it must be sorted as text. A clock reading, the
outcome of an adapter call, and what other repositories answer are parameters. An instant is an
integer. Where code is a loop over mutable state the model is a method with its loop, tied by
its `ensures` to a specification function about which the lemmas speak.

## Findings

What the proofs show that a reader of the code might not expect; where a property fails, the
member named proves the failure or the exact condition.

- `reconcile_interrupted` repairs RUNNING operations only. An operation left RECEIVED by a crash
  is never touched again and keeps its slot, so two of them block their token for good
  (`ProxyGuarantees.TwoOrphansBlockTheToken`, reached by `ProxyGuarantees.OrphansAreReached`).
- A finished record is not final. If its delivery raises inside the `try` that saved it, the generic
  handler overwrites it by a failure without data or cost, and the token keeps the cost
  (`ProxyGuarantees.FailedDeliveryOverwrites`, reached by `ProxyGuarantees.OverwriteIsReached`;
  `ProxyGuarantees.FinishedRecordChangesExactly` and `ProxyGuarantees.SettledRecordChangesExactly`
  say exactly when). The exposure bound survives, the balance holds up to what was overwritten.
- An adapter that returns no data is stored SUCCEEDED without data; nothing else is
  (`ProxyGuarantees.SucceededWithoutData`).
- Of the three OpenAlex budget tests only the operation count and the reported cost can decide
  (`ProxyGuarantees.BudgetIsReportedCost`).
- A cost of more than 28 significant digits is rounded silently: the final integrality test of
  `usd_decimal_to_microusd` can never reject (`ExactCost.LongCostIsRounded`).
- The structural descriptor cuts counts at 100000 but writes one entry for each result and each
  author, so arrays of different lengths above the bound still differ; and `primary_location`
  counts unselected keys (`StructuralShape.LengthsBeyondTheBoundShow`,
  `StructuralShape.UnselectedLocationKeyShows`).
- Bindings are read a thousand at a time, retired ones included. After 1001 binds of one optional
  input, each replacing the last, the ACTIVE binding is beyond the list: the decision to go on
  without that input, stopped by the first bind, is current again
  (`LimitTheorems.ThousandAndOneBindsRevive`), and a plan is returned without a row
  (`LimitTheorems.ThousandAndOneBindsEmptyThePlan`). Up to 1000 bindings of the consumer neither
  happens (`LimitTheorems.RevivalBoundary`, `LimitTheorems.ChecksumBoundary`,
  `LimitTheorems.PlanBoundary`).
- A confirmation is not the current decision if the clock went back
  (`PlanTheorems.EarlierClockIsNotCurrent`).
- A null block checksum with an unknown block identifier passes `validate_evidence_refs`
  (`GroundingTheorems.NullChecksumGroundsNothing`).
- A manuscript that carries an experiment summary and is validated without the record has its
  claims counted only, so an ungrounded result passes
  (`GroundingTheorems.UngroundedManuscriptPasses`, `GroundingTheorems.AcceptanceGroundsExactly`).
- A report that follows a declared output with a different one on its path cannot be promoted
  (`PromotionTheorems.ShadowedOutputIsRefused`, `PromotionTheorems.DerivedDeclarationsPromote`).
- A v3 revision plan holds one to 30 items and an INSUFFICIENT_EVIDENCE review has no revision, so
  a valid review of that assessment, without issues, or with 31 to 100, admits none
  (`RevisionAccounting.RevisableExactly`).
- A v5 accounting may contradict itself (`RevisionAccounting.ContradictionPassesV5`), even with as
  many entries as issues, because the v3 review validation lets an issue identifier repeat
  (`RevisionAccounting.RepeatedIssuePassesV5`, `RevisionAccounting.OneToOneExactlyV5`).

## Model

| member | source | states |
|---|---|---|
| ProxyStore.InMemoryProxyDatabase.AddToken | backend/cloud_api_proxy/in_memory.py:24-28 | refuses exactly when the identifier or the digest is taken; otherwise stores both and nothing else |
| ProxyStore.InMemoryProxyDatabase.SaveToken | backend/cloud_api_proxy/in_memory.py:38-41 | overwrites a stored token only; an unknown one changes nothing |
| ProxyStore.InMemoryProxyDatabase.AddOperation | backend/cloud_api_proxy/in_memory.py:50-55 | refuses exactly when the identifier or the (token, key) pair is taken; otherwise extends both dictionaries |
| ProxyStore.InMemoryProxyDatabase.SaveOperation | backend/cloud_api_proxy/in_memory.py:57-60 | overwrites a stored operation only |
| ProxyStore.InMemoryProxyDatabase.ReconcileRunning | backend/cloud_api_proxy/in_memory.py:70-81 | the loop interrupts exactly the RUNNING operations, keeps all others, and returns how many there were |
| ProxyService.CloudAPIProxyService.IssueToken | backend/cloud_api_proxy/service.py:106-190 | result and new store are those of the specified issuance, refusals included |
| ProxyService.CloudAPIProxyService.RevokeToken | backend/cloud_api_proxy/service.py:256-266 | result and new store are those of the specified revocation; a second one changes nothing |
| ProxyService.CloudAPIProxyService.AdmitCall | backend/cloud_api_proxy/service.py:268-356 | the guards of the first unit of work of submit, in their order, give the specified admission step |
| ProxyService.CloudAPIProxyService.AdmitFresh | backend/cloud_api_proxy/service.py:296-356 | the guards of a fresh key in their order, then the record and the charge |
| ProxyService.CloudAPIProxyService.MarkRunning | backend/cloud_api_proxy/service.py:358-366 | the worker's own copy, now RUNNING with a fresh response checksum, overwrites the record |
| ProxyService.CloudAPIProxyService.SaveOperation | backend/cloud_api_proxy/service.py:641-656 | one unit of work adds the cost to the token and overwrites the record |
| ProxyService.CloudAPIProxyService.FinishFailure | backend/cloud_api_proxy/service.py:658-731 | the failure record and the settled store, or nothing if the usage is one the record refuses |
| ProxyService.CloudAPIProxyService.FinishResult | backend/cloud_api_proxy/service.py:384-505 | late, unserializable, oversized, unsafe and delivered results each settle as specified |
| ProxyService.CloudAPIProxyService.FinishSearch | backend/cloud_api_proxy/service.py:368-546 | every way the adapter's future ends settles as specified, up to the delivery of the saved record |
| ProxyService.CloudAPIProxyService.FinishUndelivered | backend/cloud_api_proxy/service.py:524-546 | when that delivery raises inside the `try`, the generic handler writes the unclassified failure over the record |
| ProxyService.CloudAPIProxyService.ReconcileInterrupted | backend/cloud_api_proxy/service.py:585-589 | start-up rewrites exactly the RUNNING operations and counts them |
| ProxyLedger.FreshOperationId | backend/cloud_api_proxy/contracts.py:606-617 | under a key the token has not used, the operation identifier is not stored |
| ProxyLedger.AdmissionSucceeds | backend/cloud_api_proxy/service.py:284-356 | from a sound store the duplicate branch and the token constructor's bounds never fail, and a refusal changes nothing |
| ProxyLedger.IssueKeepsSound | backend/cloud_api_proxy/service.py:163-190 | issuing keeps indexes, records, counters and cost sums sound |
| ProxyLedger.RevokeKeepsSound | backend/cloud_api_proxy/service.py:256-266 | revoking keeps the store sound |
| ProxyLedger.AdmitKeepsSound | backend/cloud_api_proxy/service.py:324-356 | admission keeps the indexes inverse to the maps and the counters equal to what is stored |
| ProxyLedger.SettleKeepsSound | backend/cloud_api_proxy/service.py:641-656 | overwriting an active record adds exactly its reported cost to its token |
| ProxyLedger.OverwriteKeepsSound | backend/cloud_api_proxy/service.py:524-546 | overwriting a finished record by one without cost keeps the store sound and leaves exactly the old cost on the token |
| ProxyLedger.RestartKeepsSound | backend/cloud_api_proxy/in_memory.py:70-81 | reconciliation keeps the store sound and leaves nothing RUNNING |
| ProxyTheorems.OutcomeDecidesStatus | backend/cloud_api_proxy/service.py:368-546 | SUCCEEDED exactly on a deliverable result, whose data it keeps, null included; RECONCILIATION_REQUIRED exactly on an uncertain outcome; nothing written exactly on usage or a checksum that the record's constructors refuse |
| ProxyTheorems.ConcludedRecord | backend/cloud_api_proxy/service.py:474-505 | whatever the adapter does, the record written is terminal, coherent and reports its cost or none |
| ProxyTheorems.RunFromIsConsistent | backend/cloud_api_proxy/service.py:284-589 | every interleaving keeps the store sound, each worker's copy equal to the stored record (or the RUNNING copy of one it saved and could not deliver), and the cost account; records and tokens move forward only, but for a finished record overwritten by the generic failure |
| ProxyGuarantees.RunIsConsistent | backend/cloud_api_proxy/composition.py:80-92 | every state reachable from the empty store is consistent |
| ProxyGuarantees.LedgerBalances | backend/cloud_api_proxy/service.py:324-356 | in every reachable state admitted is the number of operations, used calls equal it, reserved cost is 1000 times it, HTTP calls sum to at most the used ones, at most two are active; reported cost is the sum plus what overwritten records reported, and equal to the sum exactly when none of those cost anything |
| ProxyGuarantees.TokensOnlyGrow | backend/cloud_api_proxy/service.py:256-266 | no counter ever falls and a revocation is never undone |
| ProxyGuarantees.BudgetIsReportedCost | backend/cloud_api_proxy/service.py:300-312 | the provider budget is spent exactly when operations are used up or more than 49000 is reported |
| ProxyGuarantees.AdmittedExactly | backend/cloud_api_proxy/service.py:275-314 | a call is admitted exactly when it meets the stated conditions on token, scope, key, clock, adapter, stored operations and reported cost |
| ProxyGuarantees.CostExposureIsBounded | backend/cloud_api_proxy/service.py:300-356 | if no call reports more than C, reported cost plus C for each active operation stays within 49000 + 2C under every interleaving |
| ProxyGuarantees.OneCallPerKey | backend/cloud_api_proxy/service.py:284-373 | over all runs a (token, key) owns one operation and starts at most one adapter call |
| ProxyGuarantees.UsedKeyNeverRuns | backend/cloud_api_proxy/service.py:291-295 | a used key replays the stored operation or conflicts, by its request checksum, and never changes the store |
| ProxyGuarantees.RevokedIsRefused | backend/cloud_api_proxy/service.py:604-609 | after a revocation every later call under the token is refused |
| ProxyGuarantees.StatusMovesOneStep | backend/cloud_api_proxy/service.py:358-546 | one event moves a status at most one step along RECEIVED, RUNNING, terminal, or, as an overwrite of that very record, from terminal to FAILED; new records start RECEIVED |
| ProxyGuarantees.StoredRecordsAreCoherent | backend/cloud_api_proxy/contracts.py:665-707 | a data checksum exactly when SUCCEEDED, data only then, an error exactly when failed, a response checksum over the content |
| ProxyGuarantees.SucceededWithoutData | backend/cloud_api_proxy/service.py:384-388 | settling stores SUCCEEDED without data exactly when the deliverable result has none |
| ProxyGuarantees.SuccessMeansData | backend/cloud_api_proxy/service.py:475-480 | if no adapter returns null data, SUCCEEDED holds exactly when data and its checksum are present |
| ProxyGuarantees.ReplaysAgree | backend/cloud_api_proxy/contracts.py:706-716 | a finished operation whose worker is gone is frozen, so all its replays deliver the same content and checksum |
| ProxyGuarantees.FinishedRecordChangesExactly | backend/cloud_api_proxy/service.py:505-546 | some continuation changes a finished record exactly while its worker is alive, which then has an undelivered outcome |
| ProxyGuarantees.SettledRecordChangesExactly | backend/cloud_api_proxy/service.py:368-546 | a record just settled can change exactly if it was saved inside the `try` and its delivery raised |
| ProxyGuarantees.FailedDeliveryOverwrites | backend/cloud_api_proxy/service.py:501-546 | a deliverable result whose delivery raises is stored SUCCEEDED, then FAILED without data or cost, and its token goes on reporting the cost |
| ProxyGuarantees.OverwriteIsReached | backend/cloud_api_proxy/service.py:268-546 | one proper call from the empty store reaches that state |
| ProxyGuarantees.StartUpLeavesNothingRunning | backend/cloud_api_proxy/composition.py:91 | right after start-up nothing is RUNNING and only what was RUNNING changed |
| ProxyGuarantees.CrashOrphans | backend/cloud_api_proxy/service.py:345-366 | a crash between admission and the RUNNING mark leaves a RECEIVED operation without a worker |
| ProxyGuarantees.DyingOrphans | backend/cloud_api_proxy/service.py:358-366 | so does a worker that ends there on an exception while the service stays up |
| ProxyGuarantees.OrphansStay | backend/cloud_api_proxy/in_memory.py:70-81 | no later event ever changes such an operation |
| ProxyGuarantees.TwoOrphansBlockTheToken | backend/cloud_api_proxy/service.py:313-314 | two of them keep their token from admitting anything again |
| ProxyGuarantees.OrphansAreReached | backend/cloud_api_proxy/service.py:313-366 | two proper calls of one token before a crash reach that state |
| AbstractTokens.NormalizeFormattingWhitespace | backend/cloud_api_proxy/openalex_adapter.py:864-886 | the nested loops leave what each character's maximal run decides |
| AbstractTokens.NormalizingIsStable | backend/cloud_api_proxy/openalex_adapter.py:864-886 | idempotent, never longer, no tab, LF or CR, all other characters kept in order; the fixed points are the control-free tokens |
| AbstractTokens.SafeTokensAreFixed | backend/cloud_api_proxy/openalex_adapter.py:1028-1052 | what a token is kept as is safe text, and safe texts are exactly the ones kept unchanged |
| AbstractIndex.Abstract | backend/cloud_api_proxy/openalex_adapter.py:1006-1127 | the loops over keys and positions compute the specified result, error code and element included |
| AbstractIndex.Pigeonhole | backend/cloud_api_proxy/openalex_adapter.py:1107-1108 | n different numbers below n are all of them, which is what the count test relies on |
| AbstractIndex.AbstractIsExact | backend/cloud_api_proxy/openalex_adapter.py:1018-1127 | accepted exactly when every key is within limits and the placements are a permutation of numbered words; the text is those words joined |
| AbstractIndex.KeyOrderIsIrrelevant | backend/cloud_api_proxy/openalex_adapter.py:1028-1104 | an accepted index is accepted with the same text in every key order |
| AbstractIndex.InvertedTextComesBack | backend/cloud_api_proxy/openalex_adapter.py:1006-1127 | inverting safe words and rebuilding gives them joined by single spaces exactly when the index is within the limits on keys, positions and their range, and is refused otherwise |
| ExactCost.ConversionKeeps28Digits | backend/cloud_api_proxy/openalex_adapter.py:695-709 | every acceptable amount converts to its microusd kept to 28 digits unless too large; the integrality rejection is unreachable |
| ExactCost.InputsConvert | backend/cloud_api_proxy/openalex_adapter.py:695-704 | which inputs are refused, and that an integer costs a million each |
| ExactCost.ShortCostsAreExact | backend/cloud_api_proxy/openalex_adapter.py:703-709 | a coefficient of at most 28 digits gives coefficient * 10^(exponent + 6) exactly |
| ExactCost.SignificantIsExact | backend/cloud_api_proxy/openalex_adapter.py:705 | nothing is lost exactly when the digits after the 28th are zeros |
| ExactCost.SignificantIsNearest | backend/cloud_api_proxy/openalex_adapter.py:705 | what is lost is at most half a unit of the 28th digit |
| ExactCost.ConversionIsMonotone | backend/cloud_api_proxy/openalex_adapter.py:695-709 | a larger amount never costs less, and equal amounts cost the same however they are written |
| ExactCost.LongCostIsRounded | backend/cloud_api_proxy/openalex_adapter.py:705-708 | a 29-digit amount that is accepted with its last digit lost |
| StructuralShape.Describe | backend/cloud_api_proxy/openalex_diagnostics.py:210-349 | the entries appended are the specified descriptor |
| StructuralShape.DescribeWork | backend/cloud_api_proxy/openalex_diagnostics.py:229-345 | the entries of one result, in order |
| StructuralShape.DescribeAuthorships | backend/cloud_api_proxy/openalex_diagnostics.py:260-300 | the entries of the authors of one result |
| StructuralShape.DescribeChildren | backend/cloud_api_proxy/openalex_diagnostics.py:302-317 | the child shapes of an abstract, sorted |
| StructuralShape.AbstractEntryAlike | backend/cloud_api_proxy/openalex_diagnostics.py:302-325 | the abstract's entry depends on exactly its kind, bounded size and the multiset of child shapes |
| StructuralShape.DescriptorSeesShapeOnly | backend/cloud_api_proxy/openalex_diagnostics.py:210-349 | two responses have the same descriptor exactly when their selected shapes agree |
| StructuralShape.LeavesAreInvisible | backend/cloud_api_proxy/openalex_diagnostics.py:152-203 | replacing every leaf value leaves the descriptor as it was |
| StructuralShape.LengthsBeyondTheBoundShow | backend/cloud_api_proxy/openalex_diagnostics.py:226-246 | two arrays of results whose bounded counts agree and whose descriptors differ |
| StructuralShape.UnselectedLocationKeyShows | backend/cloud_api_proxy/openalex_diagnostics.py:249-258 | one unselected key of a location changes the descriptor |
| StructuralShape.ReorderedLookup | backend/cloud_api_proxy/openalex_diagnostics.py:206-207 | selections and child shapes are the same in every order of an object with distinct keys |
| Bindings.ArtifactReferenceRepository.AddBinding | backend/persistence/adapters/in_memory.py:556-573 | refuses exactly a changed known binding and a second ACTIVE one of a requirement, otherwise holds the binding, at the end if new; keeps at most one ACTIVE |
| Bindings.ArtifactReferenceRepository.SaveBinding | backend/persistence/adapters/in_memory.py:575-590 | only state and times of a known binding may change |
| Bindings.ArtifactReferenceRepository.AddInputSetupDecision | backend/persistence/adapters/in_memory.py:647-662 | a used key is accepted again only for the same decision |
| Bindings.ArtifactReferenceService.BindDependency | backend/artifact_references/service.py:528-638 | result and new store are those of the specified bind; a failure changes nothing |
| Bindings.ArtifactReferenceService.ConfirmInputSetup | backend/artifact_references/service.py:685-777 | result and new store are those of the specified confirmation |
| Bindings.ArtifactReferenceService.MaterializationPlan | backend/artifact_references/service.py:805-918 | the loop returns the specified plan or first problem |
| BindingTheorems.HistoryIsOrderly | backend/artifact_references/service.py:584-638 | over any history a requirement has at most one ACTIVE binding, RETIRED is permanent, decisions keep their rows known |
| BindingTheorems.EveryHistoryIsOrderly | backend/artifact_references/service.py:584-638 | the same of every history from an empty repository |
| BindingTheorems.ChecksumMatchesExactly | backend/artifact_references/service.py:1015-1030 | the current checksum is that of given rows exactly when they are the rows of the ACTIVE bindings the list holds |
| BindingTheorems.FreshBindNewChecksum | backend/artifact_references/service.py:595-638 | a bind that is no replay separates all earlier from all later binding-set checksums of the consumer, unless an ACTIVE binding is then beyond the list limit |
| LimitTheorems.ChecksumBoundary | backend/artifact_references/service.py:584-638 | no history that ends with at most N bindings of the consumer repeats a checksum across a bind, exactly when N is at most 1000 |
| PlanTheorems.BindSucceedsExactly | backend/artifact_references/service.py:569-616 | a bind succeeds exactly for a replay of the same binding, or a new key that names the listed ACTIVE binding to replace, or none if there is none; it reports a duplicate exactly when it names none and the ACTIVE binding is not listed |
| PlanTheorems.DuplicatesOnlyBeyondTheLimit | backend/artifact_references/service.py:584-594 | the repository's duplicate guard fires only beyond the list limit, its immutability guard never |
| PlanTheorems.ConfirmedIsCurrentUnlessLater | backend/artifact_references/service.py:1050-1061 | the returned decision matches and is current exactly when no matching one has a later time and identifier |
| PlanTheorems.FreshConfirmationIsCurrent | backend/artifact_references/service.py:740-777 | under a clock that moved on, a new confirmation is current |
| PlanTheorems.EarlierClockIsNotCurrent | backend/artifact_references/service.py:1050-1061 | under a clock that went back, it succeeds and is not |
| PlanTheorems.StoppedDecisionNeverReturns | backend/artifact_references/service.py:1033-1068 | a stored decision that is not current is never current again, whatever is bound or confirmed later, unless an ACTIVE binding is then beyond the list limit |
| LimitTheorems.ThousandAndOneBindsRevive | backend/artifact_references/service.py:796-802 | confirming and then binding 1001 times, each bind replacing the last: the decision stops with the first bind and is current again after the last |
| LimitTheorems.RevivalBoundary | backend/artifact_references/service.py:796-802 | no history that ends with at most N bindings of the consumer revives a stopped decision, exactly when N is at most 1000 |
| PlanTheorems.OnlyItsOwnEventsMatter | backend/artifact_references/service.py:606-620 | other consumers' events leave a consumer's active bindings and decisions as they were |
| PlanTheorems.PlanAgreesWithBindings | backend/artifact_references/service.py:852-918 | one row for each listed ACTIVE binding and for each required input, with the checksums of bind time, sorted |
| PlanTheorems.PlanIsCompleteWithinTheLimit | backend/artifact_references/service.py:828-834 | the plan covers every ACTIVE binding exactly when the first thousand listed hold them all, which up to 1000 bindings they do |
| LimitTheorems.ThousandAndOneBindsEmptyThePlan | backend/artifact_references/service.py:828-851 | after the 1001 binds a plan is returned without a row though a binding is ACTIVE |
| LimitTheorems.PlanBoundary | backend/artifact_references/service.py:828-834 | plans cover every ACTIVE binding in every history with at most N bindings of the consumer, exactly when N is at most 1000 |
| PlanTheorems.PlanIgnoresRepositoryOrder | backend/artifact_references/service.py:805-918 | the plan, its checksum and every refusal are the same for every repository order |
| Promotion.ArtifactReferenceRepository.AddArtifact | backend/persistence/adapters/in_memory.py:410-433 | refuses exactly a known identifier with another identity and a path its report has used, otherwise holds the artifact, at the end if new; keeps one artifact for each path of a report |
| Promotion.ProgressArtifactService.DeriveReviewedProgressDeclarations | backend/artifact_references/service.py:69-158 | the nested loops return the specified declarations or first problem |
| Promotion.ProgressArtifactService.DeriveForOutput | backend/artifact_references/service.py:119-157 | the inner loop returns the declarations of one output or the first problem |
| Promotion.ProgressArtifactService.PromoteProgressArtifacts | backend/artifact_references/service.py:160-277 | result and new store are those of the specified promotion; a failure changes nothing |
| PromotionTheorems.DerivedDeclarationsPromote | backend/artifact_references/service.py:205-277 | derived declarations are promoted in full, one artifact each, exactly when the report is accepted and of the producer's project, and they are at most 100, on separate paths, under new identifiers, and each from the last output of its path |
| PromotionTheorems.ShadowedOutputIsRefused | backend/artifact_references/service.py:205-277 | a figure with a contract, followed by a table on its path: the figure is declared and its promotion refused |
| PromotionTheorems.SeparateOutputsAreUnshadowed | backend/artifact_references/service.py:205 | outputs on separate paths are each the last of their path |
| PromotionTheorems.DistinctKindsSeparatePaths | backend/artifact_references/service.py:114-158 | one contract for each progress kind and one output for each path put derived declarations on separate paths |
| PromotionTheorems.ReplayIsAPermutation | backend/artifact_references/service.py:167-170 | a replay changes nothing and succeeds exactly for a permutation of the first declarations |
| Approvals.ApprovalRepository.Add | backend/persistence/adapters/in_memory.py:269-274 | a known identifier is accepted only for an equal request |
| Approvals.ApprovalRepository.Save | backend/persistence/adapters/in_memory.py:276-280 | overwrites a stored request only |
| Approvals.CurrentIsStored | backend/persistence/adapters/in_memory.py:251-267 | the current request is the scope's greatest by priority, time and identifier |
| Approvals.ApprovalService.ReportRun | backend/controlled_local_run_approvals.py:333-350 | result and new log are those of the specified report |
| Approvals.ApprovalService.ApproveRun | backend/controlled_local_run_approvals.py:356-392 | result and new log are those of the specified approval |
| Approvals.ApprovalService.RejectRun | backend/controlled_local_run_approvals.py:394-432 | result and new log are those of the specified rejection |
| Approvals.ApprovalService.ConsumeApproval | backend/controlled_local_run_approvals.py:434-468 | result and new log are those of the specified consumption |
| ApprovalTheorems.TransitionsAreProper | backend/controlled_local_run_approvals.py:247-269 | no transition builds a record that the state validation rejects |
| ApprovalTheorems.OpenIsCurrent | backend/controlled_local_run_approvals.py:340-347 | a scope's open request is its current one, so a report supersedes it |
| ApprovalTheorems.HistoryIsLawful | backend/controlled_local_run_approvals.py:333-468 | over any history a scope has at most one open request, its newest, and REJECTED, CONSUMED and SUPERSEDED are absorbing |
| ApprovalTheorems.EveryHistoryIsLawful | backend/controlled_local_run_approvals.py:333-468 | the same of every history from no requests |
| ApprovalTheorems.CallsSucceedExactly | backend/controlled_local_run_approvals.py:361-374 | when an approval and a consumption succeed, replays included |
| ApprovalTheorems.ConsumptionIsApproved | backend/controlled_local_run_approvals.py:438-466 | what is consumed was approved for exactly that plan and was the newest of its scope |
| ApprovalTheorems.OneAttemptForGood | backend/controlled_local_run_approvals.py:444-447 | after a consumption only the same attempt is ever answered with it, whatever happens between |
| ApprovalTheorems.ReportConflictsOnlyOnTruncation | backend/controlled_local_run_approvals.py:335-339 | a report conflicts exactly when its truncated identifier stands for another request |
| Evidence.ValidateSources | backend/artifact_references/generic_experiment_v5_contracts.py:207-222 | the nested loops return the specified first lineage problem |
| Evidence.ValidateEvidenceRefs | backend/artifact_references/forward_downstream_contracts.py:154-200 | the loop returns its input or the specified first problem |
| Evidence.ValidateClaimList | backend/artifact_references/forward_downstream_contracts.py:203-255 | the loop returns its input or the specified first problem |
| GroundingTheorems.ValidRecordIsFounded | backend/artifact_references/generic_experiment_v5_contracts.py:367-406 | in a valid record every block has its own checksum and only backed sources, and no evidence means no blocks |
| GroundingTheorems.AcceptedReferenceIsGrounded | backend/artifact_references/forward_downstream_contracts.py:189-198 | an accepted experiment reference is the bound artifact and cites a founded block exactly when its checksum is a text |
| GroundingTheorems.NullChecksumGroundsNothing | backend/artifact_references/forward_downstream_contracts.py:195 | with a null checksum an unknown block passes |
| GroundingTheorems.ManuscriptIsGrounded | backend/artifact_references/forward_downstream_contracts.py:275-308 | if the record is supplied or there is no summary, every supported result of an accepted manuscript rests on the supplied record, and each reference whose block checksum is a text on a founded block of it (a null checksum guarantees the artifact only); a NOT_AVAILABLE record admits none; its limitations are kept |
| GroundingTheorems.UngroundedManuscriptPasses | backend/artifact_references/forward_downstream_contracts.py:301-303 | validated without its record, a manuscript with any well-formed summary passes with a supported result that cites nothing |
| GroundingTheorems.AcceptanceGroundsExactly | backend/artifact_references/forward_downstream_contracts.py:297-305 | acceptance grounds the claims, their blocks where the checksum is a text, exactly when the record is supplied, the summary is null, or the summary is malformed and so refused |
| GroundingTheorems.RevisionIsGrounded | backend/artifact_references/revision_contract_compatibility.py:63-120 | the same of an accepted revision's claims, against its prior manuscript's sources |
| Availability.EvidenceAvailability | backend/artifact_references/review_contract_compatibility.py:20-58 | the loop returns the specified list |
| Availability.ReviewEvidenceAvailability | backend/artifact_references/research_flow_contracts.py:1666-1714 | the loop returns its input or the specified first problem |
| Availability.EachReferenceOnce | backend/artifact_references/review_contract_compatibility.py:30-58 | one entry for each distinct key, in first-seen order, with the availability its binding and scope give it |
| Availability.ProducerAndCheckerAgree | backend/artifact_references/research_flow_contracts.py:1666-1714 | the checker accepts the producer's list exactly for at most 300 distinct keys and well-formed first-seen references |
| RevisionAccounting.CheckReviewIssues | backend/artifact_references/research_flow_contracts.py:1717-1765 | the loop returns the specified first problem |
| RevisionAccounting.PlanIssueIds | backend/artifact_references/research_flow_contracts.py:745-768 | the loop collects the plan's identifiers or returns the first problem |
| RevisionAccounting.AccountForIssues | backend/artifact_references/research_flow_contracts.py:1768-1811 | the loop returns the specified first problem |
| RevisionAccounting.AcceptedRevisionAccounts | backend/artifact_references/research_flow_contracts.py:720-816 | plan, accounting and issues correspond one to one; the remaining list is the blocking issues not ADDRESSED, in review order, empty unless the review required the revision, and the counts add up |
| RevisionAccounting.RevisableExactly | backend/artifact_references/research_flow_contracts.py:720-771 | by its issues, assessment and plan, a review admits an accepted revision exactly when it is valid, has one to thirty issues and is not INSUFFICIENT_EVIDENCE |
| RevisionAccounting.ContradictionPassesV5 | backend/artifact_references/revision_contract_compatibility.py:122-155 | an earlier contradicting entry for a known issue passes the v5 accounting |
| RevisionAccounting.RepeatedIssuePassesV5 | backend/artifact_references/revision_contract_compatibility.py:122-155 | two issues and two contradicting entries of one identifier pass with equal counts |
| RevisionAccounting.OneToOneExactlyV5 | backend/artifact_references/revision_contract_compatibility.py:122-155 | an accepted v5 accounting is one to one exactly when it has as many entries as the review has issues and no issue identifier repeats |

## Left out

- HTTP, FastAPI, the HTTPX transport, SQL repositories, migrations, log filters and the frontend: input and output, or libraries.
- The bytes of hashes and canonical JSON, token drawing and UUID layout: free constructors and injective functions; collisions are not modelled, except in the truncated approval identifier.
- Content filters and formats given by regular expressions: predicates passed as parameters, or one flag for the fields a check does not otherwise touch.
- The adapter's version in a response: one text for each operation, fixed at admission.
- The thread of a timed-out adapter call goes on running in the original; the concurrency bound is on operations, not on such threads.
- The local progress report scope and the session capability checks of a token: tests without state.
- ExactCost.InputsConvert: starts from a parsed decimal; the text syntax of decimals and the interpreter's limit on integer digits are not modelled.
- StructuralShape.DescriptorSeesShapeOnly: speaks of the descriptor's entries; that equal checksums mean equal descriptors is the free hash.
- Bindings.ArtifactReferenceService.BindDependency: the type, schema, lifecycle and content tests of one artifact are one predicate; the writing revision service, which also adds bindings, is not modelled.
- PlanTheorems.StoppedDecisionNeverReturns: takes the requirements of the consumer's workflow version as fixed, which is what a pinned version means.
- Promotion.ProgressArtifactService.DeriveReviewedProgressDeclarations: the shape test of a capsule's output contracts is left out, the repeated artifact type is not.
- GroundingTheorems.ManuscriptIsGrounded: citations and approvals enter as a set of known identifiers and a flag.
- Revision without a causal review, and the approvals and checksums of a review report: only easy checks.
- User skills, presentations, upstream catalogues, scripts: easy members only.
