# A verified model of the coordination ledger

The repository coordinates work done by native agents and promises one thing above all: when it does not know,
it refuses. Almost every operation is a guarded step over a small transactional store. This project models the
parts where that promise spans several steps, several stores or several actors, and proves it for every input and
every run.

| file | what it models |
|---|---|
| `Sums.dfy` | results of guarded steps, and order-free sums over the rows of a table |
| `AdmissionModel.dfy` | the admission kernel: allocations, claims, canonical resource keys, budgets, every operation as a step |
| `AdmissionInvariant.dfy` | what every reachable kernel satisfies, part by part, and that each operation keeps it |
| `AdmissionTheorems.dfy` | exclusive ownership, token conservation, the protected reserve, the life of a claim, the fence |
| `AdmissionLaws.dfy` | when each operation is admitted and what it leaves, in the fields of the rows, and on what terms every claim of a history entered and started |
| `AdmissionStore.dfy` | the store object with its row tables, each method proved to perform its step |
| `BudgetViews.dfy` | the read-only report that re-checks settlement coverage |
| `Adoption.dfy`, `AdoptionCalls.dfy` | importing retained ownership through five stores, with calls that die anywhere and run at once |
| `AdoptionLaws.dfy` | when an import starts and gets through, and what it leaves in the five stores |
| `LegacyOwners.dfy`, `LegacyLaws.dfy` | grouping retained owners into quarantined claims, and what each claim holds |
| `BrainRuns.dfy`, `SessionUsage.dfy` | high-water usage of a run and of one session, and the budget check that reads it |
| `SessionLaws.dfy` | what a measurement says, in terms of the log rows |
| `UsageOrder.dfy` | when the order of the log files decides what a session is charged |
| `BrainHandoff.dfy`, `HandoffLaws.dfy` | handing a workspace to another brain: two databases, two commits, one repair |
| `ArchiveHandoff.dfy`, `ArchiveLaws.dfy` | one archive handoff, one permission to send, a chain of observations |
| `NativeApproval.dfy` | one native permission request shared by the owner, the reader thread and the observer |
| `NativeLaws.dfy` | what each actor may do and leaves, and what an ended wait says of the turn |
| `NativeReceipts.dfy` | when the receipt of an answered request is closed, and when it is left open |
| `ThreadJournal.dfy` | the bounded journal of native threads seen during one delivery |
| `Decisions.dfy`, `DecisionLaws.dfy`, `Continuations.dfy`, `ContinuationLaws.dfy` | versioned questions to the owner, and the proposals that follow blocked ones |
| `CredentialRetirement.dfy` | retiring a credential file by link, synchronize, unlink, under power loss |
| `SignInThrottle.dfy` | the sign-in counter and its deadline |
| `PhaseScope.dfy`, `ScopeLaws.dfy` | containment of glob scopes, and what patterns and paths mean without the recursion that reads them |

Conventions. A transaction either commits a new state or changes nothing (`Step`, `Option`). Digests are injective,
so a comparison of digests is a comparison of documents and a chain of digests is a chain of documents. The clock is
an input that does not go back; one value serves one transaction. What a step reads from code that is not part of
this model (native limits, phase usage, file and connection checks, authorisation of the caller) is an arbitrary
boolean that can only make the step refuse. Code that computes is a function; code that updates rows or walks a list
is a method or a class whose contract equates the new state with that function, and the properties are proved about
the function. The modules named laws then say, in the fields of the rows and without those functions, when each step is
taken and what it leaves, mostly for the states a run can reach.

## What the proofs found

These are properties that do not hold as one might expect. Each has its exact condition or an example as a lemma.

- Recording account usage is not fenced. Done between the fence and the pin of an import into an existing kernel, it
  leaves a journal that no recovery can finish (`AccountObservationStrands`). Nor is opening the kernel with a policy:
  an empty kernel file that an import created and pinned can be initialized with another one (`OtherPolicyStrands`).
  `RecoverExactly` gives the condition for a recovery.
- A retirement repeated after a crash between its unlink and its last synchronization answers that the credential is
  retired while a power loss can still bring the old name back (`AnswerNotYetDurable`; `DurableExactly`).
- The repair of an interrupted brain handoff is refused if another workspace took the new brain meanwhile
  (`TakenBrainStrands`; `RecoversExactly`).
- Not every queued permission decision gets a final receipt. When the wait is over, a receipt still says claimed or
  queued exactly if the observer never took the decision and saw no resolution of its own whose note was kept, or took
  it and no note that could move the receipt was kept (`OpenExactly`). Seen from the click, with every note kept and no
  malformed row: the receipt is final exactly if the observer was waiting for an event at that moment, passed its
  deadline check again, or saw the request natively resolved (`ClickAnsweredExactly`). A click after the last batch is
  taken is never looked at, whatever ended the wait (`TooLate`, and `LateClickStaysQueued` for one such run).
- What a session is charged can depend on the order of its log files, in two ways: different totals tied for the
  baseline (`TiedBaselineDependsOnOrder`), and two rows of one time and total of which one lost its breakdown, where
  one order charges and the other refuses (`LostBreakdownDependsOnOrder`). All orders agree exactly under a condition
  on the tied rows, for the baseline (`BaselineOrderExactly`) and for the charge (`ChargeOrderExactly`).
- The reader of the sign-in row accepts five failures without a deadline, a row the writer never makes. A readable row
  stays readable under all calls exactly if it is not that one (`CountStaysReadable`).
- Glob containment is exact for plain paths (`LiteralExact`) and, for patterns without brackets, against directory
  trees (`TreesExactly`); against other scopes it is only conservative (`ConservativeForPatterns`).

## Model

| member | source | states |
|---|---|---|
| AdmissionInvariant.RunKeeps | orchestrator/admission.py:180-446 | over any history of the ten operations, in any environment, the rows stay consistent: ownership, accounting, limits, closure, native identities and the journal |
| AdmissionTheorems.OwnedExactly | orchestrator/admission.py:298-348 | a held claim owns exactly its repositories' canonical keys, plus runners of its own allocation only while running or blocked; a settled claim owns nothing |
| AdmissionTheorems.NoOverlap | orchestrator/admission.py:333-348 | no two held claims overlap, across allocations and under any repository names, and every resource row names a held claim |
| AdmissionTheorems.TokensConserved | orchestrator/admission.py:66-79 | included settlements are settled claims of that allocation, the observed total covers them, and observed plus unincorporated is at least everything ever settled |
| AdmissionTheorems.IncorporationMoves | orchestrator/admission.py:236-268 | a usage observation moves exactly the newly included settlements out of the unincorporated term: nothing is charged twice or forgotten |
| AdmissionTheorems.ReserveProtects | orchestrator/admission.py:298-331 | right after a new reservation every charge and the checkpoint reserve fit in the budget, and headroom fell by exactly the estimate |
| AdmissionTheorems.BeginProtects | orchestrator/admission.py:355-363 | a claim crosses the creation boundary only while its allocation is within budget, and leaves it so |
| AdmissionTheorems.SettleShifts | orchestrator/admission.py:413-435 | settling frees the estimate and charges the actual, in that allocation and no other |
| AdmissionTheorems.RunProtects | orchestrator/admission.py:273-291 | from any state within budget, every run whose settlements stay within their estimates and whose observed totals grow by no more than newly incorporated actuals stays within budget |
| AdmissionTheorems.RunAdvances | orchestrator/admission.py:298-435 | over any run a claim keeps its specification, only moves forward in status, and never changes a native identity |
| AdmissionTheorems.SettledIsFinal | orchestrator/admission.py:413-435 | a settled claim is never changed by any run |
| AdmissionTheorems.BoundaryOnce | orchestrator/admission.py:350-363 | each claim crosses the creation boundary once: later attempts refuse and the journal shows one crossing |
| AdmissionTheorems.ReplayChangesNothing | orchestrator/admission.py:310-320 | a committed reservation repeated after any run changes nothing and answers with the claim as it now stands, or refuses behind a fence |
| AdmissionTheorems.LifecycleAndLimits | orchestrator/admission.py:333-389 | an unsettled claim is running or blocked exactly when it has a native identity, identities are not shared, and the three limits hold in every reachable store |
| AdmissionTheorems.FencedRun | orchestrator/admission_legacy.py:8-24 | behind a fence no run opens an allocation, admits or begins a claim, or takes a resource |
| AdmissionLaws.ReserveExactly | orchestrator/admission.py:270-348 | a new identifier is reserved if and only if the request is well formed, no fence stands, both journals pass, the account is recent and each window running with the policy's share left, usage is recent and names brain, workers and reviews, the budget holds every charge, the reserve and the estimate, and slots, attempts and keys are free |
| AdmissionLaws.ReserveLeaves | orchestrator/admission.py:323-331 | the claim is then a reserved one with exactly that specification, and each key of its repositories, and no other, gets a row that names it |
| AdmissionLaws.BeginExactly | orchestrator/admission.py:270-291 | a reserved claim crosses the creation boundary if and only if the same holds of fence, journals, account, usage and budget; it is then starting and nothing else changes |
| AdmissionLaws.EveryClaimWasAdmitted | orchestrator/admission.py:298-331 | every claim of every reachable store entered it at a step where all of that held |
| AdmissionLaws.EveryStartHadRoom | orchestrator/admission.py:350-363 | every claim that ever started crossed the boundary at a step where its allocation had room |
| AdmissionLaws.OpenExactly | orchestrator/admission.py:180-212 | an envelope is opened if and only if it is within its bounds, no fence stands and every earlier allocation of the workspace is closed |
| AdmissionLaws.UsageExactly | orchestrator/admission.py:236-268 | usage is recorded if and only if it repeats the last, or is recent, moves forward in time, in every counter and in the settlements it lists, and covers the actuals of those settled claims |
| AdmissionLaws.BindExactly | orchestrator/admission.py:365-379 | a started, uncoordinated claim is bound to any native task no other claim has, once |
| AdmissionLaws.RunnerExactly | orchestrator/admission.py:391-411 | a runner of the allocation is taken by a running claim while it is free and no fence stands, and given back by its holder, on recent observations only |
| AdmissionLaws.SettleExactly | orchestrator/admission.py:413-435 | a held claim is settled if and only if the proof is recent, terminal with a native task or costless without one, and its runners are given back; it then records proof and time and owns nothing |
| AdmissionStores.BudgetProjection | orchestrator/admission.py:66-79 | the loop over the claims computes observed, held, unincorporated and remaining as the order-free sums |
| AdmissionStores.AdmissionStore.CheckBudget | orchestrator/admission.py:273-291 | passes exactly when the fence, journals, account windows, coverage, freshness and headroom allow it |
| AdmissionStores.AdmissionStore.CheckCapacity | orchestrator/admission.py:333-348 | passes exactly when all three counts leave a slot and the requested names resolve to free keys, and answers with those keys |
| AdmissionStores.AdmissionStore.OpenAllocation | orchestrator/admission.py:180-212 | the rows after the call are those of the allocation step; a replay answers the same envelope |
| AdmissionStores.AdmissionStore.ObserveAccount | orchestrator/admission.py:214-234 | the rows after the call are those of the account step |
| AdmissionStores.AdmissionStore.ObserveUsage | orchestrator/admission.py:236-268 | the rows after the call are those of the usage step, with its loop over the included settlements |
| AdmissionStores.AdmissionStore.Reserve | orchestrator/admission.py:298-331 | the claim and one resource row for every key of its repositories are inserted together, or nothing is |
| AdmissionStores.AdmissionStore.Begin | orchestrator/admission.py:355-363 | the rows after the call are those of the creation-boundary step |
| AdmissionStores.AdmissionStore.Bind | orchestrator/admission.py:365-379 | binds a native identity no other claim has, or answers the same one again |
| AdmissionStores.AdmissionStore.Block | orchestrator/admission.py:381-389 | keeps ownership: blocked with a native identity, uncertain without |
| AdmissionStores.AdmissionStore.UseRunner | orchestrator/admission.py:391-411 | acquires a free runner of the allocation for a running claim, or releases one it holds |
| AdmissionStores.AdmissionStore.Settle | orchestrator/admission.py:413-435 | settles once on terminal proof or proof that nothing was created, and drops all of the claim's resource rows |
| AdmissionStores.AdmissionStore.CloseAllocation | orchestrator/admission.py:437-446 | closes only an allocation without held claims |
| BudgetViews.AllocationView | orchestrator/budget_views.py:86-130 | reports exactly when the stored rows pass its integrity checks, with the same sums the writer uses |
| BudgetViews.WriterIsReportable | orchestrator/budget_views.py:92-107 | the reader never refuses a store the writer produced, unless a phase document says something else of the usage |
| BudgetViews.ReportCharges | orchestrator/budget_views.py:92-130 | a report that passes charges every settled token, and its claim counts add up |
| BudgetViews.ReportsExactly | orchestrator/budget_views.py:86-107 | rows that anything wrote are reported if and only if limits, estimates and actuals are readable, and the observation is well formed, lists settled claims once each and covers them |
| BudgetViews.IssuesExactly | orchestrator/budget_views.py:99-122 | each issue of a report is named exactly when it applies |
| Adoption.ImportedPinnedFenced | orchestrator/adoption.py:168-221 | at every durable point of every interleaving of calls, crashes and kernel use: imported implies pinned implies fenced, rows installed once and exactly the journaled bundle's claims, quarantine logged at most once |
| Adoption.NothingEverEnters | orchestrator/admission_legacy.py:54-78 | once the pin is durable no allocation, claim or runner is ever in the kernel, and an import is never undone |
| Adoption.CrashIsInvisible | orchestrator/adoption.py:168-221 | dying after any number of writes and starting over reaches what going on would have reached |
| Adoption.AdoptionConverges | orchestrator/adoption.py:224-283 | an accepted import that dies anywhere, recoveries that die anywhere, and one that finishes give exactly the stores of an uninterrupted import, with one kernel row for each reviewed claim and no other; recovering again changes nothing |
| Adoption.RecoverExactly | orchestrator/adoption.py:267-283 | a recovery gets through if and only if identifier and source match the journal, the kernel is as reviewed before the pin, and any tables in it after the pin have the reviewed policy |
| Adoption.AccountObservationStrands | orchestrator/admission.py:214-234 | an account observation between fence and pin makes every recovery refuse |
| Adoption.OtherPolicyStrands | orchestrator/admission.py:90-130 | initializing a pinned empty kernel with another policy makes every recovery refuse |
| AdoptionLaws.StartsExactly | orchestrator/adoption.py:224-264 | an import starts if and only if it is the first, the review is fresh and well formed, ownership and kernel are as reviewed, and the kernel is absent, empty or pristine |
| AdoptionLaws.DriveExactly | orchestrator/adoption.py:168-221 | from whatever stores, a call left alone gets through if and only if there is no other fence or pin, the kernel file is the pinned or reviewed one or has no tables, its tables are pristine or hold this very import, and the journal is its own |
| AdoptionLaws.RecoversExactly | orchestrator/adoption.py:267-283 | from whatever stores, a recovery gets through if and only if it names the journaled import, ownership is as it was, the kernel file is the adopted or else the reviewed one, and the call gets through |
| AdoptionLaws.ImportLeaves | orchestrator/admission_legacy.py:54-78 | it leaves the bundle's fence, a pin on one kernel file, the bundle's claims and one adoption event in that file, and a journal quarantined and logged once |
| AdoptionCalls.Platform.DurableFence | orchestrator/adoption.py:196-207 | writes the fence if absent, accepts an identical one, refuses another |
| AdoptionCalls.Platform.PinKernel | orchestrator/adoption.py:168-193 | leaves exactly the prefix of writes the step machine allows and continues at the import |
| AdoptionCalls.Platform.Finish | orchestrator/adoption.py:196-207 | fence, pin and one kernel transaction, leaving a prefix of the writes when it refuses |
| AdoptionCalls.Platform.Complete | orchestrator/adoption.py:209-221 | the quarantine receipt is written and logged by the first completion only |
| AdoptionCalls.Platform.Adopt | orchestrator/adoption.py:224-264 | the call ends as the step machine driven to its end |
| AdoptionCalls.Platform.Recover | orchestrator/adoption.py:267-283 | the call ends as the step machine restarted from the journal |
| LegacyOwners.Configure | orchestrator/adoption.py:51-72 | mappings are accepted exactly when well formed and no binding or record is mapped twice |
| LegacyOwners.ClaimsFor | orchestrator/adoption.py:100-136 | groups every retained owner under its worker, exactly when every mapping is used |
| LegacyOwners.EachOwnerOnce | orchestrator/adoption.py:100-136 | every retained owner is a version of exactly one claim |
| LegacyOwners.ClaimsAreImportable | orchestrator/admission_legacy.py:27-51 | a bundle of these claims passes the importer's own validation |
| LegacyLaws.ConfigurationExactly | orchestrator/adoption.py:51-72 | accepted are at most 2000 mappings of each kind, none of a binding or record twice, each of one to four different repository keys or a runner key |
| LegacyLaws.KeysExactly | orchestrator/adoption.py:107-126 | a claim holds exactly the keys and the evidence that the reviewed mappings give for its versions |
| LegacyLaws.NativesExactly | orchestrator/adoption.py:116-120 | and exactly the native tasks and pending clients that its worker versions name |
| LegacyLaws.IssuesExactly | orchestrator/adoption.py:108-130 | each issue is named exactly when some version leaves that gap, no version is a worker's, or two native tasks are named |
| LegacyLaws.UsedExactly | orchestrator/adoption.py:135 | all mappings are used if and only if every binding is some worker's and every record some runner's |
| LegacyLaws.VersionsExactly | orchestrator/adoption.py:103-105 | the versions of a claim are the retained owners of its worker, each as often as it was retained |
| LegacyLaws.VersionsInOrder | orchestrator/adoption.py:103-105 | and they keep the order of the owners |
| SessionUsage.Measure | orchestrator/brain_memory.py:26-120 | the loop over the rows charges the high water less the baseline and reports each gap exactly when it is there |
| SessionUsage.HighWaterIsPeak | orchestrator/brain_memory.py:108-120 | the high water is the least vector above the baseline and every sample, whatever their order |
| SessionUsage.HighWaterIsAttained | orchestrator/brain_memory.py:108-120 | each counter of the high water is the baseline's or some sample's |
| SessionUsage.RegressionIsFall | orchestrator/brain_memory.py:110-114 | a regression is reported only if some sample falls below what was reached before it |
| SessionUsage.FallIsRegression | orchestrator/brain_memory.py:110-114 | any such fall is reported |
| SessionUsage.NoRegressionIsLast | orchestrator/brain_memory.py:110-120 | without a regression the charge is the last sample less the baseline |
| SessionUsage.MoreSamplesNeverLower | orchestrator/brain_memory.py:108-120 | more samples over the same baseline never lower the charge |
| SessionLaws.ChargeExactly | orchestrator/brain_memory.py:81-119 | in terms of the log rows: a session is charged if and only if it has a baseline and a valid row to charge, and each counter from the baseline to the highest value of any such row |
| SessionLaws.BaselineExactly | orchestrator/brain_memory.py:83-105 | the baseline is the total of a row tied for the last place before the start; failing that it is zero exactly when a row tied for the first place is clean and, for a brain, all sessions began inside |
| SessionLaws.FaultyExactly | orchestrator/brain_memory.py:63-75 | a faulty record is reported exactly when a row has no time, or no valid totals or breakdown where they count |
| SessionLaws.DoubtExactly | orchestrator/brain_memory.py:88-92 | the baseline is in doubt exactly when a row without valid totals lies between it and the start |
| SessionLaws.DatedByTheLast | orchestrator/brain_memory.py:115-119 | no charged row is later than the sample a measurement is dated by |
| SessionLaws.CallsExactly | orchestrator/brain_memory.py:117-119 | the calls counted are the different totals among the charged rows |
| UsageOrder.BaselineOrderExactly | orchestrator/brain_memory.py:75-105 | every order of the rows gives the same baseline, or refuses alike, if and only if the rows tied for the last place before the interval have one total or, where there is none, the rows tied for the first place agree on being a clean prefix |
| UsageOrder.ChargeOrderExactly | orchestrator/brain_memory.py:75-120 | every order of the rows charges the same, or refuses alike, if and only if there is nothing to charge or the tied rows are all charged from alike |
| UsageOrder.OrderDoesNotMatter | orchestrator/brain_memory.py:75-120 | two readings of the same agreed rows, in any order and with any repetition, charge the same or both refuse |
| UsageOrder.TiedBaselineDependsOnOrder | orchestrator/brain_memory.py:89-97 | two brain rows for which the order decides the baseline |
| UsageOrder.LostBreakdownDependsOnOrder | orchestrator/brain_memory.py:89-105 | two worker rows for which the order decides whether the session is charged at all |
| BrainRuns.UsageNeverRefunded | orchestrator/brain_memory.py:240-254 | over any sequence of measurements and handoffs no counter of the run or of a task goes down |
| BrainRuns.ExhaustedStaysBlocked | orchestrator/brain_memory.py:192-206 | once high water plus reserve reaches the budget a guarded run is blocked in every later state |
| BrainRuns.UnblockedExactly | orchestrator/brain_memory.py:192-206 | over any run of measurements, handoffs and progress each blocker is named exactly when it applies, so a guarded run is unblocked if and only if the last measurement saved since the last handoff was of its present scope, gapless and at most two minutes old, and there is room left |
| BrainRuns.HandoffNeedsMeasure | orchestrator/brain_handoff.py:245-251 | after a handoff a guarded run stays blocked, whatever else moves on, until a measurement is saved |
| BrainRuns.CreditReaches | orchestrator/brain_memory.py:247-253 | each measured task is credited with at least what was measured |
| BrainRuns.CountersExactly | orchestrator/brain_memory.py:235-246 | over any run the high water is the least number above where it began and every saved total, and so are the brain's count over the saved sums of its sessions and the closeout's over the saved closeouts: nothing is charged twice |
| BrainRuns.TaskCountsExactly | orchestrator/brain_memory.py:247-253 | each task's count is the least number above its own and every saved record of its thread |
| BrainRuns.CreditExactly | orchestrator/brain_memory.py:247-253 | records are credited if and only if every worker's session is some task's thread; each task becomes the peak over its records, in any order, and nothing else of a task changes |
| BrainRuns.SavesExactly | orchestrator/brain_memory.py:225-229 | a measurement is saved if and only if the run is as captured and every worker it measured belongs to a task |
| BrainRuns.BrainTotalAdds | orchestrator/brain_memory.py:242 | the brain's total is the sum over its own sessions however the records are divided |
| BrainRuns.RevisionExactly | orchestrator/brain_memory.py:225-229 | every change counts the revision up by one, so a run at the revision it had is the run it was |
| BrainRuns.CreditTasks | orchestrator/brain_memory.py:242-253 | the loop over the measured sessions credits workers and adds up the brain's own |
| BrainRuns.RunStore.Save | orchestrator/brain_memory.py:225-254 | saves only against the run it was collected from; the counters it leaves are those CountersExactly and TaskCountsExactly speak of |
| BrainRuns.SegmentsFollow | orchestrator/brain_handoff.py:245-250 | every segment but the last ends where the next begins |
| BrainHandoffs.RunKeeps | orchestrator/brain_handoff.py:176-270 | over any run of any workspaces, interrupted or not: segments contiguous and ending in the run's brain, no two rows share a brain, a row is at most one handoff behind, and its history is exactly the run's closed segments |
| BrainHandoffs.StrandedWaits | orchestrator/workspaces.py:235-243 | while a row is behind, nothing but its own recovery changes that workspace |
| BrainHandoffs.CrashIsRepaired | orchestrator/brain_handoff.py:557-607 | a crash between the two commits, any other activity, then recovery: the same ledger, row, history entry and binding as an uninterrupted finalize; repeating changes nothing; refused exactly if the brain was taken |
| BrainHandoffs.RecoversExactly | orchestrator/brain_handoff.py:557-607 | recovery of a stranded workspace succeeds if and only if no other workspace took the new brain |
| BrainHandoffs.TakenBrainStrands | orchestrator/brain_handoff.py:595-598 | a workspace registered with the new brain meanwhile makes recovery refuse |
| BrainHandoffs.HandoffAdvances | orchestrator/brain_handoff.py:273-294 | candidate and receipt are recorded once and never replaced; only a finished handoff gives way to another |
| BrainHandoffs.BrainChangesOnlyByFinalize | orchestrator/brain_handoff.py:222-270 | the brain of a workspace changes only to the received candidate of its handoff |
| HandoffLaws.ConfirmExactly | orchestrator/brain_handoff.py:176-204 | a handoff starts if and only if the preview still describes brain, run, revision and bound project, and none is under way |
| HandoffLaws.NominateExactly | orchestrator/brain_handoff.py:273-294 | a replacement is nominated if and only if the handoff is prepared and the task is another one of its project and host; the same again answers the same |
| HandoffLaws.AcknowledgeExactly | orchestrator/brain_handoff.py:445-502 | a reply is recorded if and only if it comes from the nominated task, repeats the package and was seen natively; the same again answers the same |
| HandoffLaws.FinalizeExactly | orchestrator/brain_handoff.py:222-244 | a handoff is finished if and only if the review describes the received handoff, run and revision as they are, the project is still bound, and no workspace has that brain |
| HandoffLaws.FinalizeLeaves | orchestrator/brain_handoff.py:243-270 | the old segment closed and the new one open at one moment, the report gone, the handoff complete, and row, history and binding rewritten unless the process died between |
| HandoffLaws.RecoverExactly | orchestrator/brain_handoff.py:557-607 | a recovery is answered if and only if the last handoff is this one, complete and to the present brain, its project bound as it was, and the registry agrees already or nobody has the brain |
| HandoffLaws.RegisterExactly | orchestrator/workspaces.py:191-226 | a workspace is registered once, while registration is open, under a brain nobody has |
| HandoffLaws.BindExactly | orchestrator/projects.py:71-87 | a workspace is bound to a catalogued project nobody else is bound to, once |
| BrainHandoffs.Databases.RecordCandidate | orchestrator/brain_handoff.py:273-294 | the rows after the call are those of the one-shot nomination |
| BrainHandoffs.Databases.RecordReceipt | orchestrator/brain_handoff.py:445-502 | the rows after the call are those of the one-shot receipt |
| BrainHandoffs.Databases.FinalizeBoth | orchestrator/brain_handoff.py:222-270 | ledger first, registry second, with a stop allowed between them |
| BrainHandoffs.HandRun | orchestrator/brain_handoff.py:245-250 | the field-by-field update of the run is its handover |
| BrainHandoffs.Databases.RecoverRegistry | orchestrator/brain_handoff.py:557-607 | the rows after the call are those of the recovery step |
| ArchiveHandoffs.RunKeeps | orchestrator/archive_handoff.py:208-285 | every reachable state is sound, and the projection check accepts it |
| ArchiveHandoffs.ReachableIsValid | orchestrator/archive_handoff.py:92-143 | the reader's comparison of rows and its bounded walk accept every state the writer makes |
| ArchiveHandoffs.WalkReads | orchestrator/archive_handoff.py:118-138 | the bounded walk accepts exactly the chains that fit and have at most sixteen observations |
| ArchiveHandoffs.ValidateProjection | orchestrator/archive_handoff.py:92-143 | the cursor loop decides exactly that check |
| ArchiveHandoffs.RecordsExactly | orchestrator/archive_handoff.py:252-285 | a new observation is recorded if and only if it continues an unsettled latest one, tells sent from unsent rightly, is not backdated or future, and is at most the sixteenth |
| ArchiveHandoffs.OneHandoffOnePermit | orchestrator/archive_handoff.py:208-250 | over any run at most one handoff is prepared and at most one permit to send is given |
| ArchiveHandoffs.RunExtends | orchestrator/archive_handoff.py:208-285 | handoff, send boundary and observations are never replaced; a settled outcome is final |
| ArchiveHandoffs.SettledSides | orchestrator/archive_handoff.py:266-270 | cancelled only if no permit was or will be given, archived only after one |
| ArchiveHandoffs.NeverBackdated | orchestrator/archive_handoff.py:120-136 | observation times never go back along the chain and only the latest may be settled |
| ArchiveHandoffs.RecordReplays | orchestrator/archive_handoff.py:260-265 | an observation sent again at any later time answers its first receipt and changes nothing; its identifier with other content is refused |
| ArchiveLaws.ValidExactly | orchestrator/archive_handoff.py:92-143 | the reader accepts a worker without a trace of an archival, and one whose slot, handoff, command, boundary and whole chain of at most sixteen observations fit each other field by field |
| ArchiveLaws.StoryExactly | orchestrator/archive_handoff.py:118-136 | a chain fits if and only if each observation on it belongs to the handoff and follows what it names |
| ArchiveLaws.CommandTells | orchestrator/archive_handoff.py:139-142 | in every reachable state the command is completed exactly when archived was observed last, rejected exactly when unsent was, and processing otherwise |
| ArchiveLaws.SubmitExactly | orchestrator/archive_handoff.py:66-72 | a request is taken while no handoff was ever prepared and no other request waits |
| ArchiveLaws.PrepareExactly | orchestrator/archive_handoff.py:208-230 | a handoff is prepared, once, for a received request that alone waits |
| ArchiveLaws.CheckExactly | orchestrator/archive_handoff.py:232-250 | the permit is given, once, for the prepared handoff before anything was observed of it |
| ArchiveLaws.RecordLeaves | orchestrator/archive_handoff.py:270-285 | a recorded observation becomes the latest, is found under its identifier, and decides worker and command |
| ArchiveHandoffs.Rows.PrepareHandoff | orchestrator/archive_handoff.py:208-230 | slot, pointer, command and event are written together or not at all |
| ArchiveHandoffs.Rows.CheckSend | orchestrator/archive_handoff.py:232-250 | consumes the send boundary and answers the permit, or changes nothing |
| ArchiveHandoffs.Rows.RecordObservation | orchestrator/archive_handoff.py:252-285 | writes the rows, checks the projection last and rolls back if it fails |
| NativeApprovals.OneResponse | orchestrator/app_server_wake.py:680-796 | under every interleaving at most one response is attempted, it carries the single claimed decision, no row judged before it ended the request, and an acceptance went out only while the phase was this brain's, running, neither stopped nor blocked, the message accepted for this turn, and a live claim accepting this request stood |
| NativeApprovals.ResponseExactly | orchestrator/app_server_wake.py:767-796 | at the moment of decision a response is attempted if and only if it is timely and, for an acceptance, the transaction goes through and the ledger says all of that; otherwise nothing is written and the wait closes as blocked, or as uncertain where the transaction failed |
| NativeApprovals.NothingAfterTheEnd | orchestrator/app_server_wake.py:731-766 | once a judged batch holds a resolution, an end of turn or another request, no response is ever attempted again |
| NativeApprovals.AnswersAreTrue | orchestrator/app_server_wake.py:733-742 | resolved is answered and kept only after a delivered response and a native resolution of this request; blocked and resolved-without-response mean nothing was written |
| NativeApprovals.ReceiptsMoveForward | orchestrator/app_server_wake.py:608-642 | receipts only move forward and the four final ones never change |
| NativeApprovals.EveryInterleavingKeeps | orchestrator/app_server_wake.py:644-813 | the three actors keep the joint invariant from the moment the request is offered |
| NativeApprovals.JudgeReads | orchestrator/app_server_wake.py:731-766 | a batch is judged by its first row that is not a plain notice |
| NativeApprovals.LateClickStaysQueued | orchestrator/app_server_wake.py:715-723 | one run in which a click after the observer's last look stays queued with nothing written |
| NativeLaws.ClaimExactly | orchestrator/native_approval_controls.py:195-227 | a decision is claimed if and only if the request allows it, the message was accepted for this turn of this brain, the phase runs and is not stopped where it accepts, and the ledger has room and no claim for the request |
| NativeLaws.ClickExactly | orchestrator/app_server_wake.py:494-514 | the claimed decision is queued if and only if the request is pending, undecided and in time |
| NativeLaws.SettlesExactly | orchestrator/native_approval_controls.py:229-246 | what came of the click is written into every claim of the request that is still only claimed |
| NativeLaws.ReadExactly | orchestrator/app_server_wake.py:688-711 | the reader keeps at most 64 rows, wakes the observer, and stops at a row that ends the wait, a row too many, or a cancellation |
| NativeLaws.JudgeExactly | orchestrator/app_server_wake.py:724-766 | the first row that is no notice rules the batch, kind by kind, and the rows after it are never judged |
| NativeLaws.NoteExactly | orchestrator/app_server_wake.py:608-642 | a note that goes through on this turn moves the first claim of this request that it may replace, and no other |
| NativeLaws.EndsExactly | orchestrator/app_server_wake.py:791-810 | past the deadline what was taken is blocked, or uncertain once it was sent, and the end withdraws the request |
| NativeLaws.TurnToldExactly | orchestrator/app_server_wake.py:743-756 | in every interleaving the wait answers with a turn's status if and only if the last row judged is the end of this very turn with that status |
| NativeReceipts.OpenExactly | orchestrator/app_server_wake.py:644-813 | under every interleaving, when the wait is over a receipt still says claimed or queued if and only if the decision was never taken and no kept note of an own resolution found it, or it was taken and no note that could move the receipt was kept; and it stops at written exactly if that note was kept and no closing one |
| NativeReceipts.ClickAnsweredExactly | orchestrator/app_server_wake.py:494-514 | a queued click, with every note kept and nothing malformed, ends in a final receipt if and only if the observer was polling at the click, entered its loop again, or saw the request resolved; otherwise it stays queued |
| NativeReceipts.TooLate | orchestrator/app_server_wake.py:717-766 | once a batch that ends the wait is taken, no later click is looked at in any continuation |
| NativeReceipts.RunCompletes | orchestrator/app_server_wake.py:608-813 | at every point of every interleaving the receipt is what the kept notes made of the owner's claim, and the notes are those the observer's place allows |
| NativeApprovals.PendingApproval.ConfirmApproval | orchestrator/app_server_wake.py:494-514 | queues one decision on the request that is still pending and unexpired |
| NativeApprovals.PendingApproval.ReadLine | orchestrator/app_server_wake.py:691-711 | appends at most 64 rows and stops after one that ends the request |
| NativeApprovals.PendingApproval.JudgeRows | orchestrator/app_server_wake.py:731-766 | the loop over the batch gives that verdict before any response is considered |
| NativeApprovals.PendingApproval.RecordStatus | orchestrator/app_server_wake.py:608-642 | the receipt and the observer's next place after one attempt to keep it |
| NativeApprovals.NoteEntry | orchestrator/app_server_wake.py:627-638 | the loop rewrites the first entry of this request whose status may move |
| ThreadJournals.RunKeeps | orchestrator/app_server_wake.py:883-979 | for any stream of notifications the journal stays a rooted tree of at most 128 threads and is never complete |
| ThreadJournals.ReachesBrain | orchestrator/app_server_wake.py:927-947 | following parents from any entry reaches the brain |
| ThreadJournals.ThreadsAreUnique | orchestrator/app_server_wake.py:944-955 | no two entries name one thread, and none names the brain |
| ThreadJournals.RunGrows | orchestrator/app_server_wake.py:913-979 | entries are never altered, gaps only grow, and a closed stream accepts nothing |
| ThreadJournals.EveryEntryWasHeard | orchestrator/app_server_wake.py:913-957 | every entry of the journal is the word of a row heard while the stream was open, about a thread hanging from the brain or from one recorded before |
| ThreadJournals.HeardOrGap | orchestrator/app_server_wake.py:944-955 | an owned thread that was heard is for ever either recorded as heard or covered by a recorded gap |
| ThreadJournals.StartRefuses | orchestrator/app_server_wake.py:913-942 | a row that names no thread but the brain, or no source, is ignored; one that does is refused out of scope |
| ThreadJournals.StartExactly | orchestrator/app_server_wake.py:943-957 | in scope, from an owned source, a new thread is recorded as the row said while there is room, a full or contradicted journal gets its gap once, and nothing else changes |
| ThreadJournals.FinishExactly | orchestrator/app_server_wake.py:959-979 | an open journal of the brain is closed, with the gaps its end leaves |
| ThreadJournals.UuidExactly | orchestrator/app_server_wake.py:22 | a thread identifier is thirty-two lower-case hexadecimal digits in five groups |
| ThreadJournals.CommandNote.RecordThreadStarted | orchestrator/app_server_wake.py:913-957 | the note after the call is that of the step; a refused row changes nothing |
| ThreadJournals.CommandNote.FinishObservation | orchestrator/app_server_wake.py:959-979 | closes once, with the gaps an unconfirmed end or a lost event leaves |
| Decisions.RunKeeps | orchestrator/decisions.py:31-125 | over any run versions are numbered, only the latest version is in flight, and every decision is in step with its command |
| Decisions.VersionsExactly | orchestrator/decisions.py:53-66 | the versions of a question are exactly 1 to n, each held by one decision |
| Decisions.CommandTells | orchestrator/decisions.py:74-125 | from a command's progress one reads its decision's status, and back |
| Decisions.NeverStuck | orchestrator/decisions.py:96-125 | a queued answer can always be received; a received one can be resolved either way with exactly those artifact lists that are one to eight retained artifacts of its repository |
| Decisions.RepublishNeverReopens | orchestrator/decisions.py:53-55 | publishing the latest wording again returns it as it stands and changes nothing |
| Decisions.RunAdvances | orchestrator/decisions.py:47-125 | a decision only moves forward; answers and resolutions are never rewritten |
| DecisionLaws.PublishExactly | orchestrator/decisions.py:31-60 | a question is published if and only if it is well formed, cites retained artifacts, and is the last wording already or has no answer being worked on |
| DecisionLaws.PublishLeaves | orchestrator/decisions.py:53-71 | a new wording is open, numbered after all earlier ones; an earlier one in flight is superseded and no other row changes |
| DecisionLaws.PublishRejects | orchestrator/decisions.py:61-64 | the queued answer to an earlier wording is rejected, and no other command changes |
| DecisionLaws.AnswerExactly | orchestrator/decisions.py:74-93 | an open question is answered if and only if the option is its own and a note is given where one is asked for; option and note are recorded as given and the command is queued |
| DecisionLaws.ReceiveExactly | orchestrator/decisions.py:96-102 | a queued answer is received and nothing else is; decision and command move together |
| DecisionLaws.ResolveExactly | orchestrator/decisions.py:105-125 | a received answer is resolved by the result that names its command with artifacts of its repository, recorded as given; the same result again changes nothing |
| DecisionLaws.RunGenuine | orchestrator/decisions.py:31-125 | over any run every question is well formed, every answer is one its question asks for, and every resolution cites one to eight artifacts |
| Decisions.Survey | orchestrator/decisions.py:53-66 | one pass finds the count and the highest version of a question |
| Decisions.DecisionRows.PublishDecision | orchestrator/decisions.py:31-71 | supersedes what was in flight and its command, and adds the next version |
| Decisions.DecisionRows.ResolveDecision | orchestrator/decisions.py:105-125 | resolves decision and command together, or replays the recorded result |
| Continuations.RunKeeps | orchestrator/continuation.py:10-56 | over any run records stay versioned and grounded in the resolution they were written for |
| Continuations.RecordVersionsExactly | orchestrator/continuation.py:29-35 | the versions of a source's records are exactly 1 to n |
| Continuations.NoCycles | orchestrator/continuation.py:36-44 | every follow-up is asked after its source was resolved, so no chain of follow-ups returns to a question |
| Continuations.StandingExactly | orchestrator/continuation.py:59-88 | no proposal without a record; a revision if and only if a question linked by the latest record was superseded or a linked packet is gone or changed; waiting exactly when it links nothing; otherwise the proposal stands |
| Continuations.ProposalReplays | orchestrator/continuation.py:29-31 | proposing a plan again after any further run, with no later proposal for its source between, returns its record and changes nothing |
| ContinuationLaws.ProposeExactly | orchestrator/continuation.py:10-56 | a proposal is published if and only if it links something new of the repository or waits for something external, and is the last plan already or was written knowing how many there are; the record links each packet as the queue has it at that moment |
| ContinuationLaws.RowsExactly | orchestrator/continuation.py:66-88 | the projection shows the blocked questions, each with its standing, and nothing else |
| ContinuationLaws.NewestExactly | orchestrator/continuation.py:29-64 | of several records of a source both readers take the highest version; of equals the writer takes the last and the projection the first |
| Continuations.Project | orchestrator/continuation.py:59-88 | the loops compute that standing for every blocked decision |
| CredentialRetirement.NeverLost | orchestrator/controller_recovery_file.py:49-81 | whatever directory a power loss leaves, one of the two names holds the reviewed credential and an existing archive was not overwritten |
| CredentialRetirement.RerunRetires | orchestrator/controller_recovery_file.py:49-81 | from any crash point one call left alone ends with the archive name only, with one link |
| CredentialRetirement.DurableExactly | orchestrator/controller_recovery_file.py:41-81 | the answer is durable if and only if the call saw the old name or its removal was durable already |
| CredentialRetirement.AnswerNotYetDurable | orchestrator/controller_recovery_file.py:62-66 | a crash and a rerun after which the old name can come back |
| CredentialRetirement.ForeignArchiveUntouched | orchestrator/controller_recovery_file.py:57-62 | with another file under the archive name, no call in any history of crashes and repetitions performs a directory operation or answers that the credential is retired |
| CredentialRetirement.RetiresExactly | orchestrator/controller_recovery_file.py:41-81 | from any directory whatever a call retires exactly what is retirable: the reviewed file under one or both of the names and no other; it refuses everything else without touching it |
| CredentialRetirement.Directory.Retire | orchestrator/controller_recovery_file.py:49-81 | the call performs the step machine's directory operations in order |
| SignInThrottle.AlwaysReadable | orchestrator/account.py:79-83 | from the configured row the stored counter and deadline always pass the reader's checks, and five failures and a deadline come together |
| SignInThrottle.FiveMinutesApart | orchestrator/account.py:111-133 | without a success the fifth attempt after any attempt comes at least 300 seconds later, interrupted attempts included |
| SignInThrottle.WindowBound | orchestrator/account.py:111-133 | any half-open window holds at most five evaluated guesses per started five minutes |
| SignInThrottle.GuessesBounded | orchestrator/account.py:111-133 | that bound for every run of calls none of which both lives and matches |
| SignInThrottle.CountsInFives | orchestrator/account.py:111-133 | after any such run the row is a function of the recorded attempts, counted in fives, and the next call is turned away exactly when a full five is less than five minutes old |
| SignInThrottle.CountStaysReadable | orchestrator/account.py:79-83 | a readable row stays readable under every sequence of calls if and only if it is not five failures without a deadline |
| SignInThrottle.LocalAccount.SignIn | orchestrator/account.py:111-133 | a call of admissible length is right if and only if the row is readable, its deadline has passed, the call lived, and password hash and folded name both match; only that clears the counter, and every other admitted call leaves it one higher and the fifth with a deadline 300 seconds on |
| PhaseScope.ContainedSound | orchestrator/phase_scope.py:7-21 | every path a contained pattern matches is matched by a valid scope |
| PhaseScope.LiteralExact | orchestrator/phase_scope.py:7-21 | a plain path is contained if and only if it is valid and some valid scope matches it |
| PhaseScope.ContainedTransitive | orchestrator/phase_scope.py:7-21 | containment composes through intermediate scopes |
| PhaseScope.TreesExactly | orchestrator/phase_scope.py:15-21 | against directory trees a valid pattern without brackets is contained if and only if every valid plain path it matches is in scope |
| PhaseScope.ConservativeForPatterns | orchestrator/phase_scope.py:14-21 | a pattern all of whose matches are in scope and that is not contained |
| ScopeLaws.MatchesExactly | orchestrator/phase_scope.py:18 | a pattern matches a text if and only if the text can be cut into one fitting piece for each part of the pattern |
| ScopeLaws.RangeExactly | orchestrator/phase_scope.py:18 | a dash in a class holds what lies between its neighbours, both included |
| ScopeLaws.ValidExactly | orchestrator/phase_scope.py:8-13 | a path is valid if and only if it is bounded, without control characters and backslashes, and nothing empty, no dot and no two dots stand between its slashes |
| ScopeLaws.ContainedExactly | orchestrator/phase_scope.py:14-21 | a valid candidate is contained if and only if some valid scope is it, matches it as plain text, or is the tree of a directory it lies below |

## Left out

- Text, identifier and digest formats (lengths, regular expressions, SHA shapes, JSON canonical form): values are assumed well formed, except where a format decides a branch (thread identifiers, scope paths).
- Coordinators that move claims with a binding hash: such claims are reserved and begun here but never bound, blocked or settled.
- The native-limit, phase-usage and retention journals and the enrollment checks: each is a boolean that can only refuse.
- Several readings of the clock inside one transaction: one value per transaction.
- `budget_views.inspect`, `account_view`, the presentation summaries and the previews: projections without state.
- `admission_legacy.inventory` and `projection`: read-only grouping of rows that `LegacyOwners` already groups.
- HMAC signatures, scrypt and session secrets: the signed document is taken as what the owner confirmed.
- File modes, owners, devices, symbolic links and the other single-file checks, apart from link counts in `retire`.
- Sockets, frames, threads and locks as such: the approval protocol is modelled as atomic steps between lock and transaction boundaries.
- `AppServerWake.send` and the turn observer as wholes, and the effect-capture markers that ride on the thread journal.
- `brain_memory.collect` and log discovery: a measurement arrives as records per session.
- BrainHandoffs.StrandedWaits: takes the comparison of the two databases as atomic with the step it guards; a ledger handle opened before the crash could still write.
- PhaseScope.TreesExactly: asks for fewer than 50,000 scopes, because enough single-letter trees can cover all matches of a pattern between them, and for no bracket, because `a/[b]/c` matches one path only and is contained in no tree but its own.
- How other coordination moves a run's tasks and status between measurements: one arbitrary step that keeps task identifiers, threads once set, and counters.
- Other runs of the same ledger: a workspace has one run from registration on, and the status `cancelled` of a handoff is read but set by no code.
- The content of a handoff package and the native log search behind a receipt: each is a boolean guard.
- `archive_handoff.safety_in` beyond the worker's own archive commands: inventory, descendants and brain stop are one boolean.
- Replays of a submitted command by its identifier in the ledger core: a known command identifier is simply refused here.
- Titles and link details in the rows of `continuation.project`: only the status of each row is modelled.
- LegacyOwners.Configure: does not ask that the keys of a mapping are sorted, because keys have no order here.
- AdoptionCalls.Platform.Recover: states the stores of a call that gets through, because those of a refused call are given by Finish.
