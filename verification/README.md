# HustlyTasker: a verified model of its transactional core

HustlyTasker is a Django backend for agencies: Profiles own monthly Workspaces, Workspaces hold Tasks,
Tasks are assigned, worked on, submitted and reviewed, people join by e-mailed invitations, accounts are
secured by e-mailed tokens, and a generated plan can be turned into Tasks. Its service layer is a set of
transactional state machines over rows. This project models those machines and proves what they are for.

| file | what it models |
|---|---|
| `Prelude`, `Ancestry`, `Calendar`, `DeadlineText` | options and results; parent chains; the proleptic Gregorian calendar; deadline text as characters |
| `DeadlineSpellings` | every way to write an instant, and the proof that exactly these texts are accepted |
| `PlanContract` | the task-plan contract: strict parsing of a JSON value tree, the normal form, payload respelling |
| `PlanReadings` | which JSON stands for which plan, as a relation, and the proof that the parser decides it |
| `Tenancy` | tenant rows, access contexts, the read policy in all its encodings, the locked mutation context |
| `Authority` | what contexts, locks and account lookups amount to, in the columns of the rows |
| `TaskHierarchy` | `Task.clean`: ancestor walk and subtree scan |
| `TaskWorkflow`, `WorkflowInvariants`, `TaskStore` | the Task services as functions, what every run keeps, and the same services changing rows step by step |
| `TaskEffects` | when each Task service succeeds and what it leaves in every column |
| `CapabilityHints` | serializer hints and notification recipients against the services |
| `PlanCompiler` | the worklist that turns a plan into Tasks |
| `ReviewTies` | which deliverable can be decided, and how a Task gets stuck in review |
| `AiProposals`, `ProposalRuns`, `ProposalDesk` | generate and confirm, idempotent by key and body, over all interleavings, and the same services as they run |
| `ProposalEffects` | when generating and confirming go ahead, what they store, and the Tasks of the submitted plan column by column |
| `Organisation`, `OrganisationInvariants`, `OrganisationEffects` | Profiles, memberships, Workspaces and their members; what each service leaves |
| `Deliveries` | the claim, send and finalise steps of mailed credentials |
| `Invitations`, `InvitationInvariants`, `InvitationEffects`, `OfficeStore` | invitations, what every run keeps, what each service leaves, and the organisation and invitation services changing rows step by step |
| `AccountTokens`, `AccountInvariants`, `AccountEffects`, `AccountStore` | `User.save`, verification and reset tokens |
| `CsrfClient` | the single-flight CSRF token cache of the browser client |

A service appears twice. A function says which state follows a call, or which error; a method of a class
whose fields are the tables does the work in the order of the source, with rollbacks, and its `ensures`
says that it leaves exactly the state of that function. What the services promise is proved about the
functions, over every run from empty tables and every argument, clock read and unlocked read. Each class
has a `Valid()` that is the invariant of those runs: `Store` (`WorkInv`), `Desk` (`AiInv`), `Registry`
(`OfficeInv`), `Accounts` (`VaultInv`) and `ApiClient` (`ClientInv`); every service that writes requires
and ensures it and is one step of the runs (`Step` or `Next`), and the remaining methods are steps inside a
transaction or only read.

Nothing above would notice a function that computes the wrong thing in an orderly way. That is what the
`Effects` modules, `DeadlineSpellings` and `PlanReadings` are for: for each service they say, in the columns
of the rows and in the roles of those involved and without the service's own helpers, exactly when it
succeeds, what it then leaves in every table, and which error it gives otherwise.

## Assumptions

- Row locks and the advisory lock serialise the locked part of each transaction, so each locked section is
  one step. Unlocked reads are separate snapshots that may differ from the locked rows in any way.
- No write bypasses the modelled services and `save` methods, and no row is deleted.
- The clock does not run backwards inside a call that reads it before a lock and again at the insert. No
  other order between clock reads is assumed, except that `ReviewTies.LatestIsLast` asks for strictly
  increasing creation times.
- One tenant snapshot serves every `create_task` of a confirmation. The source resolves the tenant again for
  each; the Profile, Workspace and membership rows are locked meanwhile, but the actor's account row is
  not, so an account deactivated in between would end the loop and undo the transaction.
- Digests and password fingerprints are injective; a raw token names the one row with its digest.
- Fresh primary keys are fresh. Where a table has a unique key the model uses it as the key of a map;
  tables read in creation order are sequences. `first()` without an order is the least key.
- Time is counted in microseconds.
- The runs of the organisation deactivate no account; addresses may change and accounts may appear.

## Where the code parts from what one would expect

- `readable_memberships` does not look at which Profile a Workspace belongs to, so for a Workspace of
  another Profile it disagrees with the four other encodings of the read policy
  (`Tenancy.ForeignWorkspaceIsReadableOnly`); with that one condition all agree
  (`Tenancy.ReadPolicyAgrees`).
- Printing a plan and parsing it gives the same plan if and only if the plan satisfies the contract.
  Submitting a normal form again works exactly when it fits the request limit
  (`PlanContract.NormalFormIsFixed`), and it can be longer than the payload it came from: a stored deadline
  is up to five characters longer than the accepted text (`DeadlineText.StoredLength`), as it is for a
  fraction of one digit (`DeadlineText.OneDigitFractionGrows`).
- A generated answer may be twice as long as a request, so an offer can be stored that nobody can confirm
  as it is shown (`ProposalRuns.OversizedOfferIsStored`); an offer that stands can be confirmed as shown
  exactly when its payload and the request built from it fit (`ProposalRuns.OfferConfirmsAsShown`).
- "The latest deliverable" is the newest by creation time and then by random key, and only that one can be
  decided. A manager can decide the last revision exactly when no earlier deliverable of the Task is newer
  (`ReviewTies.ReviewableWhen`). If two share a creation time this can fail: a run of the services from empty
  tables ends in such a state (`ReviewTies.TiedRunSticks`), nobody can decide anything there
  (`ReviewTies.NobodyDecides`), and no later call gets the Task out (`ReviewTies.StuckForEver`).
- Saving an account as inactive checks neither the last-owner rule nor the owners of Workspaces. It keeps
  both exactly when every Profile has another active Owner and the user owns no Workspace
  (`OrganisationInvariants.DeactivationKeepsWhen`); it breaks the first for anybody who has just founded a
  Profile (`OrganisationInvariants.DeactivatingFounderStrands`).
- Revoking, accepting or declining an overdue invitation fails and still commits its expiry.

## Model

| member | source | states |
|---|---|---|
| `Calendar.ToUtcKeepsInstant` | backend/apps/ai/validation.py:64-79 | moving a reading with an offset to UTC succeeds exactly when the instant lies in years 1 to 9999, and keeps the instant, over months and leap years |
| `Calendar.InstantIdentifies` | backend/apps/ai/validation.py:64-79 | two readings have the same instant if and only if they are equal |
| `Calendar.SameInstantSameUtc` | backend/apps/ai/validation.py:64-79 | readings at different offsets go to the same UTC reading if and only if they mean the same instant |
| `Calendar.MonthStarts` | backend/apps/ai/validation.py:64-79 | the days before each month are those of the Gregorian calendar |
| `Calendar.FourCenturies` | backend/apps/ai/validation.py:64-79 | the calendar repeats after 400 years with 97 leap days |
| `Calendar.NextDayCounts` | backend/apps/ai/validation.py:64-79 | the day after carries over month and year ends and counts one day on |
| `Calendar.PreviousDayCounts` | backend/apps/ai/validation.py:64-79 | the day before borrows over month and year starts and counts one day back |
| `DeadlineSpellings.SpellingIsRead` | backend/apps/ai/validation.py:64-79 | for every local reading, up to six fraction digits and a zone ahead of UTC, behind it or `Z`, the text is accepted exactly when the zone is below a day and the instant in range, and is stored as that instant |
| `DeadlineSpellings.AcceptedIsSpelling` | backend/apps/ai/validation.py:64-79 | every accepted text is such a spelling of a real calendar day and clock time |
| `DeadlineSpellings.ParsedExactlyWhenSpelled` | backend/apps/ai/validation.py:64-79 | a text is stored as a UTC time if and only if it spells the instant of that time |
| `DeadlineSpellings.PadDigit` | backend/apps/ai/durable_services.py:165-166 | numbers are written in decimal positional notation |
| `DeadlineText.DeadlineRoundTrip` | backend/apps/ai/durable_services.py:159-169 | parsing the stored form of any supported instant gives that instant |
| `DeadlineText.StoredLength` | backend/apps/ai/durable_services.py:165-166 | the stored form is at most five characters longer than the accepted text, and longer only where a fraction is written out |
| `DeadlineText.OneDigitFractionGrows` | backend/apps/ai/durable_services.py:165-166 | a text with a fraction of one digit is accepted and stored with five characters more |
| `DeadlineSpellings.ParseKeepsMeaning` | backend/apps/ai/validation.py:64-79 | a deadline is accepted exactly when it means a supported instant, keeps it, and two texts are stored alike exactly when they mean the same instant |
| `PlanContract.ParseTaskPlan` | backend/apps/ai/validation.py:182-223 | the parser's loops accept exactly the payloads of the contract: fields, unique references, a closed forest of bounded depth |
| `PlanContract.CollectNodes` | backend/apps/ai/validation.py:188-208 | collecting nodes stops at the first bad or repeated one and otherwise indexes every node by its reference |
| `PlanContract.WalkToRoot` | backend/apps/ai/validation.py:210-220 | one walk succeeds exactly when the node reaches a root within the depth limit, meeting no gap and no cycle |
| `PlanContract.WalkAll` | backend/apps/ai/validation.py:209-220 | all walks succeed exactly when the plan is a forest of bounded depth |
| `PlanReadings.DecodesExactly` | backend/apps/ai/validation.py:188-207 | an item is decoded to a node if and only if it has exactly the seven members, each says the node's value in its own spelling, and the texts keep their limits |
| `PlanReadings.ParsesExactly` | backend/apps/ai/validation.py:182-223 | a response is parsed to a plan if and only if it renders that plan: version, 1 to 20 nodes, unique references, parents in the plan, at most three edges above a node, and both lists of lines |
| `PlanReadings.RefIsItem` | backend/apps/ai/validation.py:19 | a reference is accepted exactly when it is `item_` and a number from 1 to 999 |
| `PlanReadings.EditedExactly` | backend/apps/ai/durable_services.py:172-180 | a submitted payload becomes this plan and this normal form exactly when it fits, renders the plan, and the normal form is the plan's |
| `PlanReadings.NormalFormRenders` | backend/apps/ai/durable_services.py:159-169 | the normal form renders its plan, with every deadline in UTC and six fraction digits or none |
| `PlanContract.ParsedIsValid` | backend/apps/ai/validation.py:182-223 | every plan the parser returns satisfies the contract |
| `PlanContract.PlanRoundTrip` | backend/apps/ai/durable_services.py:159-180 | printing and parsing gives a plan back if and only if it satisfies the contract |
| `PlanContract.NormalFormIsFixed` | backend/apps/ai/durable_services.py:172-180 | normalising twice is normalising once, as long as the normal form fits the size limit, and only then |
| `PlanContract.NormalFormIdentifiesPlan` | backend/apps/ai/durable_services.py:159-169 | two valid plans have the same normal form exactly when they are the same plan |
| `PlanContract.RespelledPayloadsNormaliseAlike` | backend/apps/ai/durable_services.py:172-180 | payloads that differ only in how deadlines spell an instant parse alike and normalise to the same JSON |
| `Ancestry.BoundedIsAcyclic` | backend/apps/tasks/models.py:139-180 | a parent relation of bounded depth has no cycle |
| `Tenancy.CurrentIsFresh` | backend/apps/workspace/access.py:108-160 | a context passes revalidation exactly when resolving it afresh gives the same context, and then it may read |
| `Tenancy.ReadPolicyAgrees` | backend/apps/notifications/access.py:9-52 | resolving, the visible Workspaces, the readable memberships and the visible notifications agree on who may read a Workspace of the Profile |
| `Tenancy.ForeignWorkspaceIsReadableOnly` | backend/apps/notifications/access.py:9-24 | a state where readable memberships alone name a reader of a Workspace of another Profile |
| `Tenancy.LockedContextIsFresh` | backend/apps/workspace/services.py:102-167 | whatever changed since the unlocked reads, the lock returns a context exactly when the Profile is active and the locked rows resolve to that same context |
| `Authority.ResolvedExactly` | backend/apps/workspace/access.py:177-319 | a context resolves if and only if the Workspace belongs to the Profile, the membership is live in that role, and a Member holds an active ADMIN, MEMBER or VIEWER row there |
| `Authority.LockRefuses` | backend/apps/workspace/services.py:102-167 | who cannot see the Workspace is told that there is none, who sees it in an archived Profile is refused, and everybody else gets the context |
| `Authority.ManagersOnly` | backend/apps/workspace/access.py:441-459 | Tasks are managed exactly by live Owners, Admins and Workspace ADMINs while Profile and Workspace are active |
| `Authority.EditorsOnly` | backend/apps/workspace/access.py:462-474 | Tasks are executed exactly by live Members with an active MEMBER row while Profile and Workspace are active |
| `Authority.LookupIs` | backend/apps/accounts/security_services.py:156-160 | a lookup names an account exactly when it is the only match and its address the one asked for; several matches conflict |
| `Tenancy.LockContextIs` | backend/apps/workspace/services.py:102-167 | on one snapshot, locking succeeds exactly when the context resolves and the Profile is active |
| `TaskHierarchy.CleanHierarchy` | backend/apps/tasks/models.py:139-180 | from a valid hierarchy a create or a move is accepted if and only if the result is an acyclic forest inside Workspaces of depth at most 3, and each refusal points at what it found |
| `TaskHierarchy.WalkAncestors` | backend/apps/tasks/models.py:139-154 | the bounded ancestor walk refuses only what breaks the forest, with its reason, and otherwise returns the depth of the row |
| `TaskHierarchy.ScanSubtree` | backend/apps/tasks/models.py:156-180 | the bounded breadth-first scan accepts a move exactly when the whole subtree fits below its new place |
| `TaskHierarchy.WriteKeepsForest` | backend/apps/tasks/models.py:139-180 | clear ancestors above and a fitting subtree below keep the forest |
| `TaskHierarchy.DeepSubtreeBreaksForest` | backend/apps/tasks/models.py:156-180 | a subtree that reaches too deep breaks it |
| `TaskHierarchy.ForeignSubtreeBreaksForest` | backend/apps/tasks/models.py:156-180 | a subtree row of another Workspace breaks it |
| `TaskHierarchy.Redirect` | backend/apps/tasks/models.py:139-180 | writing one row redirects exactly the ancestor chains through it |
| `TaskEffects.CreateIs` | backend/apps/tasks/services.py:130-178 | creating succeeds exactly for a manager, a free key, a title of 1 to 255 characters and a parent of the Workspace with at most two edges above it; the row, the log entry and each refusal |
| `TaskEffects.UpdateTakesEffect` | backend/apps/tasks/services.py:201-247 | each member present in a patch is written, each absent one and every other row is as before, and nothing is written only if nothing differs |
| `TaskEffects.UpdateSucceedsWhen` | backend/apps/tasks/services.py:181-247 | exactly when an update succeeds, by actor, scope, title and resulting hierarchy, and each refusal |
| `TaskEffects.MoveSucceedsWhen` | backend/apps/tasks/services.py:204-229 | a manager's move inside the Workspace happens, and takes effect, if and only if the moved hierarchy is a valid forest |
| `TaskEffects.TitlesStay` | backend/apps/tasks/services.py:155-229 | every service keeps stored titles stripped to 1 to 255 characters |
| `TaskEffects.AssignSucceedsFor` | backend/apps/tasks/services.py:250-340 | exactly when assigning succeeds: a manager, an open Task, a live Editor of the Workspace who does not hold it yet |
| `TaskEffects.AssignRefuses` | backend/apps/tasks/services.py:250-340 | which error any other assignment gets |
| `TaskEffects.AssignTakesEffect` | backend/apps/tasks/services.py:290-392 | the assignee holds the Task from now on, the previous one no longer does, other assignments stay; status, log entry and exactly one notice, to the assignee |
| `TaskEffects.StartIs` | backend/apps/tasks/services.py:395-427 | exactly when starting succeeds, what it leaves, and each refusal |
| `TaskEffects.SubmitSucceedsFor` | backend/apps/tasks/services.py:430-480 | exactly when submitting succeeds, and each refusal |
| `TaskEffects.SubmitTakesEffect` | backend/apps/tasks/services.py:461-509 | the deliverable with its next revision, stripped link and times, the status, the log entry, and notices to exactly the managers of the Workspace |
| `TaskEffects.ReviewRefuses` | backend/apps/tasks/services.py:512-570 | which error a decision gets that does not succeed |
| `TaskEffects.ReviewTakesEffect` | backend/apps/tasks/services.py:563-623 | the review with its stripped comment, both statuses, the log entry, and a notice of the right kind to the uploader alone, if still a reader |
| `TaskEffects.StripIsMiddle` | backend/apps/tasks/services.py:480-520 | stripping takes spaces off both ends and nothing else |
| `TaskStore.Store.SaveTaskStatus` | backend/apps/tasks/services.py:96-101 | saving a status changes that column only and passes the re-validation of the row |
| `TaskStore.Store.CreateTask` | backend/apps/tasks/services.py:130-178 | commits the new PENDING row and its audit entry, or leaves everything as it was |
| `TaskStore.Store.UpdateTask` | backend/apps/tasks/services.py:181-247 | commits the patched row and its audit entry, nothing for an empty patch, or leaves everything as it was |
| `TaskStore.Store.AssignTask` | backend/apps/tasks/services.py:250-392 | commits the released and the new assignment, the status, audit and notices together, or none of them |
| `TaskStore.Store.StartTask` | backend/apps/tasks/services.py:395-427 | commits the step from ASSIGNED to WORKING of the assigned Editor |
| `TaskStore.Store.SubmitDeliverable` | backend/apps/tasks/services.py:430-509 | commits the next revision, the status, audit and notices together, or none of them |
| `TaskStore.Store.ReviewDeliverable` | backend/apps/tasks/services.py:512-675 | commits the review, both statuses, audit and notices together, or none of them |
| `TaskStore.Store.InsertNotices` | backend/apps/notifications/services.py:121-131 | inserting one notice per recipient keeps the notices that exist, with their read state |
| `TaskStore.Store.LogAndNotify` | backend/apps/tasks/services.py:368-391 | a refused notification undoes the whole business transaction |
| `WorkflowInvariants.CallMeans` | backend/apps/tasks/services.py:130-675 | a failed call changes nothing; a successful one writes its rows and exactly one audit entry, except an update without changes |
| `WorkflowInvariants.StepKeeps` | backend/apps/tasks/services.py:130-675 | every call keeps the hierarchy, the rows of each Task and the audit chain in order |
| `WorkflowInvariants.EveryRunKeeps` | backend/apps/tasks/services.py:130-675 | in every run revisions are 1..n, all but the last are rejected, REVIEW and COMPLETED mirror the last decision, reviews match and are by somebody else, there is one active assignment unless PENDING, and replaying the audit gives the status |
| `WorkflowInvariants.AssignKeeps` | backend/apps/tasks/services.py:250-392 | assigning leaves exactly one active assignment and touches no other Task |
| `WorkflowInvariants.SubmitKeeps` | backend/apps/tasks/services.py:430-509 | submitting adds the next revision and keeps every other Task |
| `WorkflowInvariants.ReviewKeeps` | backend/apps/tasks/services.py:512-623 | deciding settles the last revision with one matching review and keeps every other Task |
| `WorkflowInvariants.TrailGrows` | backend/apps/tasks/services.py:82-101 | each step's entry continues the unbroken chain of before and after statuses |
| `WorkflowInvariants.CompletedStays` | backend/apps/tasks/services.py:250-675 | no call changes a completed Task's status or deliverables |
| `WorkflowInvariants.RevisionCounts` | backend/apps/tasks/services.py:461-465 | asking for the highest revision counts the deliverables |
| `ReviewTies.ReviewableWhen` | backend/apps/tasks/services.py:534-562 | of a Task in review some deliverable can be decided by a manager other than the uploader if and only if no earlier deliverable is newer than the last one, and then it is the last revision |
| `ReviewTies.LatestIsLastWhen` | backend/apps/tasks/services.py:539-541 | the row the query picks is the last revision if and only if no earlier row of the Task is newer |
| `ReviewTies.LatestIsLast` | backend/apps/tasks/services.py:539-541 | strictly increasing creation times are enough for that |
| `ReviewTies.HiddenLastSticks` | backend/apps/tasks/services.py:534-550 | a Task in review is stuck if and only if an earlier deliverable is newer than the last one |
| `ReviewTies.TiedSubmissionSticks` | backend/apps/tasks/services.py:461-481 | submitting while some row of the Task is newer, by time or key, gets the Task stuck |
| `ReviewTies.TiedRunSticks` | backend/apps/tasks/services.py:130-675 | with any manager and Editor of a Workspace a run from empty tables, whose two submissions share a creation time, gets a Task stuck |
| `ReviewTies.NobodyDecides` | backend/apps/tasks/services.py:534-562 | on a stuck Task every decision by anybody fails |
| `ReviewTies.StuckForEver` | backend/apps/tasks/services.py:130-675 | no later run of any service gets a stuck Task out of review |
| `CapabilityHints.StartSucceedsWhen` | backend/apps/tasks/services.py:395-427 | exactly when starting succeeds |
| `CapabilityHints.SubmitSucceedsWhen` | backend/apps/tasks/services.py:430-509 | exactly when submitting succeeds: emitting notifications never vetoes it |
| `CapabilityHints.ReviewSucceedsWhen` | backend/apps/tasks/services.py:512-623 | exactly when deciding succeeds: emitting notifications never vetoes it |
| `CapabilityHints.AssignSucceedsWhen` | backend/apps/tasks/services.py:250-392 | exactly when assigning succeeds: emitting notifications never vetoes it |
| `CapabilityHints.TaskHintsAreExact` | backend/apps/tasks/serializers.py:84-130 | on every reachable state `can_start` and `can_submit` are true if and only if the call succeeds |
| `CapabilityHints.ReviewHintsAreExact` | backend/apps/tasks/serializers.py:203-242 | on every reachable state `can_approve` and `can_request_changes` are true if and only if the call succeeds |
| `CapabilityHints.ReplayIsIdempotent` | backend/apps/notifications/services.py:28-131 | emitting an event again changes nothing, so a read notice stays read |
| `CapabilityHints.NoticesStayLogged` | backend/apps/notifications/services.py:28-131 | notices are never removed or changed by a service and always name an audit entry |
| `CapabilityHints.SubmitNotifiesReviewers` | backend/apps/notifications/services.py:80-95 | submitting notifies exactly the users who may review |
| `CapabilityHints.AssignNotifiesAssignee` | backend/apps/notifications/services.py:65-79 | assigning notifies exactly the new assignee |
| `CapabilityHints.ReviewNotifiesUploader` | backend/apps/notifications/services.py:96-110 | a decision notifies exactly the uploader, if still a reader |
| `PlanCompiler.CompilePlan` | backend/apps/ai/durable_services.py:274-287 | for every valid plan in any node order the worklist ends after at most four passes, creates exactly one Task per node by calls of `create_task`, and changes nothing else |
| `PlanCompiler.OnePass` | backend/apps/ai/durable_services.py:277-287 | a pass over a snapshot of the worklist settles one more level of the plan |
| `PlanCompiler.VisitNode` | backend/apps/ai/durable_services.py:278-287 | a node is skipped exactly while its parent has no Task, and otherwise created and taken off the list |
| `PlanCompiler.CompiledIsIsomorphic` | backend/apps/ai/durable_services.py:274-287 | the k-th ancestor of a created Task is the Task of the k-th ancestor of its node, for every k |
| `PlanCompiler.NextNodeFits` | backend/apps/ai/durable_services.py:280-285 | the depth check of `create_task` never refuses a node whose parent has its Task |
| `ProposalDesk.Desk.GenerateFirst` | backend/apps/ai/durable_services.py:189-200 | the first transaction refuses, replays or lets the adapter run, and writes nothing |
| `ProposalDesk.Desk.GenerateSecond` | backend/apps/ai/durable_services.py:214-235 | the second transaction looks again and inserts proposal and operation together only where the key is free |
| `ProposalDesk.Desk.Confirm` | backend/apps/ai/durable_services.py:246-297 | a confirmation answers what its checks decide, in their order; only a go-ahead writes, and then Tasks, proposal and operation together |
| `ProposalDesk.Desk.ConfirmRow` | backend/apps/ai/durable_services.py:256-297 | the checks run in their order, and a row the database rejects, saved with a clock before its creation, leaves everything as it was |
| `ProposalDesk.Desk.Commit` | backend/apps/ai/durable_services.py:274-297 | the Tasks, the proposal that names them and the operation are written together |
| `PlanCompiler.CompileAndUndo` | backend/apps/ai/durable_services.py:253-297 | a row rejected later in the transaction undoes every Task that was created |
| `ProposalRuns.ConfirmKeeps` | backend/apps/ai/durable_services.py:246-297 | confirming keeps keys, proposals, operations, created Tasks and the workflow invariants in order |
| `ProposalRuns.EveryRunKeepsProposals` | backend/apps/ai/durable_services.py:183-297 | over every interleaving a key names one operation, a proposal has one GENERATE and at most one CONFIRM, is CONFIRMED exactly if a CONFIRM exists, and its Tasks exist and belong to it alone |
| `ProposalRuns.NothingIsFine` | backend/apps/ai/models.py:32-82 | the empty tables satisfy the invariant, so runs may start there |
| `ProposalRuns.RunsGoForward` | backend/apps/ai/durable_services.py:183-297 | operations and Tasks are never lost and a confirmed proposal never changes |
| `ProposalRuns.OfferConfirmsAsShown` | backend/apps/ai/durable_services.py:252-272 | under a fresh key an open offer can be confirmed as shown if and only if payload and request fit the request limit |
| `ProposalRuns.OversizedOfferIsStored` | backend/apps/ai/durable_services.py:214-235 | an answer whose normal form exceeds the request limit is stored, and no call can ever confirm it unchanged |
| `ProposalEffects.ProceedsExactly` | backend/apps/ai/durable_services.py:246-272 | a confirmation goes ahead with a plan if and only if the submitted payload reads as that plan and fits, a manager asks, the key is fresh and the offer of that revision stands |
| `ProposalEffects.ConfirmTakesEffect` | backend/apps/ai/durable_services.py:274-297 | the submitted plan, edits and all, becomes one Task per node with its title, description, priority, deadline and parent; the request is recorded as submitted, the proposal is closed, and nothing else changes |
| `ProposalEffects.RepeatReplays` | backend/apps/ai/durable_services.py:115-129 | the same request again, after any later run and by any manager, is answered with those Tasks for thirty days and with the end of recovery afterwards |
| `ProposalEffects.RefusesExactly` | backend/apps/ai/durable_services.py:260-273 | which refusal a manager's request under a fresh key gets |
| `ProposalEffects.RefusesEarly` | backend/apps/ai/durable_services.py:246-258 | malformed requests, callers who do not manage, and proposals of another scope are refused before any row decides |
| `ProposalEffects.AnyRow` | backend/apps/ai/durable_services.py:266-273 | the order in which status, revision and contract, time and payload of any row decide |
| `ProposalEffects.AnswersExactly` | backend/apps/ai/durable_services.py:246-297 | the caller gets the closed proposal, or the replayed one marked as a replay, or the error, and only a go-ahead writes |
| `ProposalEffects.AsksAdapterExactly` | backend/apps/ai/durable_services.py:183-200 | the adapter is asked exactly for a manager's known scenario under a fresh key, and what is answered otherwise |
| `ProposalEffects.KeepsExactly` | backend/apps/ai/durable_services.py:214-235 | an answer that reads as a plan is stored in normal form with all its columns, open for half an hour and kept for a week |
| `ProposalEffects.KeepRefuses` | backend/apps/ai/durable_services.py:201-226 | which answers are not stored, and what is returned then |
| `ProposalEffects.ReplayedExactly` | backend/apps/ai/durable_services.py:115-138 | a used generation key conflicts for another scenario, is over once the offer lapsed or recovery ended, and otherwise shows the proposal, with its payload only while the offer stands |
| `ProposalRuns.ConfirmReplays` | backend/apps/ai/durable_services.py:115-129 | a used key answers with the same Task map inside the recovery window, never after it, and with a conflict if proposal, revision or plan differ |
| `ProposalRuns.RespelledConfirmIsTheSame` | backend/apps/ai/durable_services.py:256-260 | respelling deadlines does not make another request |
| `ProposalRuns.NeverConfirmedTwice` | backend/apps/ai/durable_services.py:267-268 | no later request under any key compiles a confirmed proposal again |
| `ProposalRuns.GenerateNeverAsksAgain` | backend/apps/ai/durable_services.py:189-200 | a used generation key never reaches the adapter again |
| `ProposalRuns.GenerateReplays` | backend/apps/ai/durable_services.py:216-226 | a second transaction that lost the race returns the stored proposal and writes nothing |
| `OfficeStore.Registry.CreateProfileWithOwner` | backend/apps/workspace/services.py:175-207 | commits the Profile with its active Owner, or nothing |
| `OfficeStore.Registry.UpdateProfileMembership` | backend/apps/workspace/services.py:275-432 | commits the new role and state of one membership, or the first error in the order of the checks |
| `OfficeStore.Registry.SetStatusOfProfile` | backend/apps/workspace/services.py:210-256 | only an Owner, still an Owner under the locks, archives or restores |
| `OfficeStore.Registry.OpenWorkspace` | backend/apps/workspace/services.py:435-510 | commits the Workspace of a free month for a manager, or nothing |
| `OfficeStore.Registry.SetStatusOfWorkspace` | backend/apps/workspace/services.py:560-601 | commits the status, after re-validating the owner of the Workspace |
| `OfficeStore.Registry.AddWorkspaceMember` | backend/apps/workspace/services.py:622-744 | adds or reactivates a role within the actor's ceiling for a live member of the Profile |
| `OfficeStore.Registry.UpdateWorkspaceMember` | backend/apps/workspace/services.py:747-846 | changes an active role within the actor's ceiling |
| `OfficeStore.Registry.RevokeWorkspaceMember` | backend/apps/workspace/services.py:849-930 | deactivates an active role within the actor's ceiling |
| `OfficeStore.Registry.RevokeStaleAccess` | backend/apps/workspace/invitation_services.py:551-572 | the loop takes away every active Workspace role of the user in the Profile and touches no other row |
| `OfficeStore.Registry.CreateInvitation` | backend/apps/workspace/invitation_services.py:262-333 | commits expiries and the new invitation together, or nothing |
| `OfficeStore.Registry.ResendInvitation` | backend/apps/workspace/invitation_services.py:403-478 | commits the retired and the replacing invitation together, or nothing |
| `OfficeStore.Registry.RevokeInvitation` | backend/apps/workspace/invitation_services.py:357-400 | revokes a pending invitation; an overdue one is expired although the call fails |
| `OfficeStore.Registry.AcceptInvitation` | backend/apps/workspace/invitation_services.py:576-673 | starts the membership, takes stale roles away and ends the invitation together; an overdue one is expired although the call fails |
| `OfficeStore.Registry.DeclineInvitation` | backend/apps/workspace/invitation_services.py:677-718 | ends the invitation; an overdue one is expired although the call fails |
| `OfficeStore.Registry.ClaimDelivery` | backend/apps/workspace/invitation_delivery.py:45-58 | the claim writes only a pending, unexpired row |
| `OfficeStore.Registry.FinishDelivery` | backend/apps/workspace/invitation_delivery.py:60-100 | the outcome is written only while the row is pending |
| `OrganisationInvariants.ServeMeans` | backend/apps/workspace/services.py:175-930 | each successful organisation call writes one row of one kind, under the condition that protects owners and managers |
| `OrganisationInvariants.WritesKeep` | backend/apps/workspace/services.py:275-510 | every such write keeps an active Owner per Profile, one active membership per user and Profile, an active manager behind every Workspace's owner, and one Workspace per month |
| `OrganisationInvariants.DeactivationKeepsWhen` | backend/apps/accounts/models.py:89-121 | saving an account as inactive keeps the ownership rules if and only if every Profile has another active Owner and the user owns no Workspace |
| `OrganisationInvariants.DeactivatingFounderStrands` | backend/apps/workspace/services.py:175-207 | deactivating the founder of a Profile straight after founding it leaves the Profile without an active Owner |
| `OrganisationInvariants.AdmitKeeps` | backend/apps/workspace/invitation_services.py:592-628 | acceptance keeps the same |
| `OrganisationInvariants.ServingResurrectsNothing` | backend/apps/workspace/services.py:334-340 | no service makes a Workspace role active that is older than the current activation of its user's membership |
| `OrganisationInvariants.AdmittingResurrectsNothing` | backend/apps/workspace/invitation_services.py:551-645 | rejoining gives no earlier Workspace role back |
| `OrganisationEffects.FoundingIs` | backend/apps/workspace/services.py:175-207 | an active account founds a Profile and is its one active Owner |
| `OrganisationEffects.ProfileStatusIs` | backend/apps/workspace/services.py:210-256 | exactly a live Owner, before and under the locks, archives or restores, and each refusal |
| `OrganisationEffects.EditIs` | backend/apps/workspace/services.py:275-432 | an edit succeeds exactly when the actor stands high enough and it does no harm to rows; it writes the requested role and state of that membership and nothing else; each refusal |
| `OrganisationEffects.EditNeedsMembership` | backend/apps/workspace/services.py:275-310 | without a live membership in a live Profile nothing is edited |
| `OrganisationEffects.HarmlessKeeps` | backend/apps/workspace/services.py:340-400 | the rules an edit must meet hold if and only if the edited rows still have an active Owner per Profile and a manager behind every Workspace |
| `OrganisationEffects.OpeningIs` | backend/apps/workspace/services.py:435-510 | exactly a manager whose role did not change opens a Workspace, for a first day of a free month; the row and the refusals |
| `OrganisationEffects.OpeningDenied` | backend/apps/workspace/services.py:435-470 | what anybody else is told |
| `OrganisationEffects.LocksExactly` | backend/apps/workspace/services.py:102-167 | the lock returns a context if and only if four unlocked reads showed it and the locked rows still do |
| `OrganisationEffects.LockDenies` | backend/apps/workspace/services.py:102-167 | which error a failed lock gives |
| `OrganisationEffects.WorkspaceStatusIs` | backend/apps/workspace/services.py:560-601 | exactly an Owner or Admin changes the status of a Workspace whose owner leads the Profile |
| `OrganisationEffects.OwnersLead` | backend/apps/workspace/services.py:560-601 | in reachable rows that condition always holds |
| `OrganisationEffects.AddingIs` | backend/apps/workspace/services.py:622-744 | which member is added in which role by whom, the row, and each refusal |
| `OrganisationEffects.ChangingIs` | backend/apps/workspace/services.py:747-846 | the same for changing a role |
| `OrganisationEffects.RevokingIs` | backend/apps/workspace/services.py:849-930 | the same for ending a role |
| `OrganisationEffects.JoiningIs` | backend/apps/workspace/invitation_services.py:592-628 | a user joins exactly without any membership, or by returning through the only ended one in the role offered |
| `OrganisationEffects.JoiningTakesEffect` | backend/apps/workspace/invitation_services.py:551-645 | the user is a member in that role, every Workspace role of the user in the Profile has ended, and nothing else changes |
| `Deliveries.DeliveryStepsFit` | backend/apps/workspace/invitation_delivery.py:45-100 | claim and finalise keep the delivery columns well-formed, act only on a waiting row and never after the callback has finished |
| `Invitations.CountsAlike` | backend/apps/workspace/invitation_services.py:157-174 | the counters depend only on address, inviter and creation time |
| `InvitationInvariants.WindowWithin` | backend/apps/workspace/invitation_services.py:157-174 | the counter sees every row of a window that starts no earlier than its own |
| `InvitationInvariants.OneMoreInWindow` | backend/apps/workspace/invitation_services.py:231-242 | a row that passed the limits overfills no closed 24-hour window, although the clock was read before the lock and the creation time at the insert |
| `InvitationInvariants.MakeWaySuffices` | backend/apps/workspace/invitation_services.py:289-324 | once overdue rows made way, no unique constraint can refuse the new invitation |
| `InvitationInvariants.CreateKeeps` | backend/apps/workspace/invitation_services.py:262-333 | issuing keeps shapes, uniqueness, chains and rates |
| `InvitationInvariants.ResendKeeps` | backend/apps/workspace/invitation_services.py:403-478 | replacing keeps shapes, uniqueness, chains and rates |
| `InvitationInvariants.AcceptKeeps` | backend/apps/workspace/invitation_services.py:576-673 | accepting ends the row and admits its user exactly when no error is returned |
| `InvitationInvariants.DeliveryKeeps` | backend/apps/workspace/invitation_delivery.py:45-100 | delivery steps keep every row's shape and never touch an ended row |
| `InvitationInvariants.StepKeeps` | backend/apps/workspace/invitation_services.py:157-718 | every call and every delivery step keeps rows, rates, chains, owners and managers in order |
| `InvitationInvariants.EveryRunKeepsOffice` | backend/apps/workspace/invitation_services.py:157-718 | over every interleaving: terminal and delivery shapes, accepted or declined only if sent, one pending invitation per address and per account, linear replacement chains of ended rows, at most 5 per recipient and 30 per inviter in any 24 hours, owners and managers kept, no access resurrected |
| `InvitationInvariants.EndedRowsStay` | backend/apps/workspace/models.py:257-340 | an ended invitation never changes any field again |
| `InvitationEffects.InviterLocked` | backend/apps/workspace/invitation_services.py:98-143 | invitations are managed exactly by live Owners and Admins of a live Profile, within the roles each may give |
| `InvitationEffects.CountIs` | backend/apps/workspace/invitation_services.py:157-174 | the counters are the numbers of invitations sent by the user and to the address since a moment |
| `InvitationEffects.CreatingIs` | backend/apps/workspace/invitation_services.py:262-333 | exactly when an invitation is created: role, mail, limits of 30 and 5 in 24 hours, no member, everything in the way due; each refusal |
| `InvitationEffects.CreatingTakesEffect` | backend/apps/workspace/invitation_services.py:207-259 | the due rows in the way have expired, and the new row has every column as asked, good for a week |
| `InvitationEffects.CreatingNeedsInviter` | backend/apps/workspace/invitation_services.py:110-143 | what anybody else is told who tries to create one |
| `InvitationEffects.NeedsInviter` | backend/apps/workspace/invitation_services.py:336-354 | what anybody else is told who tries to replace or revoke one |
| `InvitationEffects.AmbiguousAddress` | backend/apps/workspace/invitation_services.py:199-204 | an address with several matching accounts is a conflict |
| `InvitationEffects.ReplacingIs` | backend/apps/workspace/invitation_services.py:403-478 | exactly when an invitation is replaced, and each refusal |
| `InvitationEffects.ReplacingTakesEffect` | backend/apps/workspace/invitation_services.py:403-478 | the old row is expired or revoked, the new one repeats its offer through the actor's membership and names it |
| `InvitationEffects.RevokingIs` | backend/apps/workspace/invitation_services.py:357-400 | what revoking leaves and answers for every row |
| `InvitationEffects.AcceptingIs` | backend/apps/workspace/invitation_services.py:494-673 | accepting succeeds exactly for the account the sent invitation waits for, in time, while the inviter could still give the role and the account may join in it; what is left otherwise |
| `InvitationEffects.AcceptingTakesEffect` | backend/apps/workspace/invitation_services.py:576-673 | the account is an active member in exactly the role offered, the row says who accepted it and when, and every other row is as before |
| `InvitationEffects.DecliningIs` | backend/apps/workspace/invitation_services.py:677-718 | what declining leaves and answers for every row |
| `InvitationEffects.ClaimTakesEffect` | backend/apps/workspace/invitation_delivery.py:45-58 | the claim notes its attempt exactly on a waiting row that is not due |
| `InvitationEffects.FinishTakesEffect` | backend/apps/workspace/invitation_delivery.py:60-100 | a claimed delivery of a waiting row ends as sent or as failed, with its times; an ended row keeps its columns |
| `AccountStore.Accounts.Save` | backend/apps/accounts/models.py:89-147 | writes the named columns, unverifies a changed address, and revokes the pending tokens bound to what changed |
| `AccountStore.Accounts.Register` | backend/apps/accounts/models.py:92-93 | inserts a new account whose address and verified identity are free |
| `AccountStore.Accounts.RevokePending` | backend/apps/accounts/models.py:122-146 | the bulk update revokes exactly the pending tokens of the user and purposes |
| `AccountStore.Accounts.IssueLocked` | backend/apps/accounts/security_services.py:82-153 | retires the pending token of the purpose and inserts its bound replacement, or changes nothing |
| `AccountStore.Accounts.RequestEmailVerification` | backend/apps/accounts/security_services.py:163-186 | issues only for an active account its address resolves to, and not once verified |
| `AccountStore.Accounts.RequestPasswordReset` | backend/apps/accounts/security_services.py:189-225 | issues only if the account found without locks still qualifies under them; a miss looks like success |
| `AccountStore.Accounts.ConfirmEmailVerification` | backend/apps/accounts/security_services.py:276-322 | verifies the address and consumes the token together; an overdue token is expired although the call fails |
| `AccountStore.Accounts.ConfirmPasswordReset` | backend/apps/accounts/security_services.py:326-370 | consumes the token, then saves the password, together or not at all; an overdue token is expired although the call fails |
| `AccountStore.Accounts.ClaimDelivery` | backend/apps/accounts/email_delivery.py:75-91 | the claim writes only a pending, unexpired token |
| `AccountStore.Accounts.FinishDelivery` | backend/apps/accounts/email_delivery.py:93-133 | the outcome is written only while the token is pending |
| `AccountInvariants.InvalidatedBound` | backend/apps/accounts/models.py:100-146 | whatever a stale instance saves, no token stays pending that was bound to a changed address or password |
| `AccountInvariants.SaveKeeps` | backend/apps/accounts/models.py:89-147 | saving keeps bindings, shapes, uniqueness and chains |
| `AccountInvariants.IssueKeeps` | backend/apps/accounts/security_services.py:82-153 | issuing keeps bindings, shapes, uniqueness and chains |
| `AccountInvariants.IssueSucceedsWhen` | backend/apps/accounts/security_services.py:82-132 | only the expiry constraint can refuse a new token: rotation satisfies the unique ones |
| `AccountInvariants.ResetKeeps` | backend/apps/accounts/security_services.py:326-370 | confirming a reset keeps them all |
| `AccountInvariants.VerificationKeeps` | backend/apps/accounts/security_services.py:276-322 | confirming an address keeps them all |
| `AccountInvariants.EveryRunKeepsVault` | backend/apps/accounts/models.py:239-306 | in every run each pending token is bound to the current address, each reset token also to the current usable password; one is pending per user and purpose; tokens are well-shaped, consumed only if sent, linearly chained, and frozen once ended |
| `AccountInvariants.NothingIsFine` | backend/apps/accounts/models.py:206-306 | the empty tables satisfy the invariant, so runs may start there |
| `AccountInvariants.ResetSucceedsWhen` | backend/apps/accounts/security_services.py:265-370 | a reset succeeds exactly for a sent, pending, unexpired token of an active, uniquely resolved account with a valid password: the binding comparisons never fail |
| `AccountInvariants.VerificationSucceedsWhen` | backend/apps/accounts/security_services.py:265-322 | a verification succeeds exactly if also the actor owns the token and nobody else verified the address, and then the account is verified |
| `AccountInvariants.ResetEndsEarlierTokens` | backend/apps/accounts/security_services.py:326-370 | after a completed reset, in whatever follows, no earlier reset token of the user can be used |
| `AccountEffects.SaveTakesEffect` | backend/apps/accounts/models.py:89-147 | every named column is written and every other kept, another address is unverified, and exactly the waiting tokens bound to what changed are revoked |
| `AccountEffects.SaveSucceedsWhen` | backend/apps/accounts/models.py:89-121 | saving succeeds exactly for an existing row when what is saved is free |
| `AccountEffects.SignUpIs` | backend/apps/accounts/models.py:92-93 | the same for a new account |
| `AccountEffects.IssueTakesEffect` | backend/apps/accounts/security_services.py:82-132 | the token that waited is expired or revoked, and the new one names it and is bound to the account as it is, for a day or an hour |
| `AccountEffects.VerificationIsIssued` | backend/apps/accounts/security_services.py:163-186 | what asking for a verification does for every account |
| `AccountEffects.ResetIsIssued` | backend/apps/accounts/security_services.py:189-225 | a reset is issued to the account both lookups find fit for it |
| `AccountEffects.ResetIsSilent` | backend/apps/accounts/security_services.py:189-225 | otherwise nothing changes and no error says so |
| `AccountEffects.ResetTakesEffect` | backend/apps/accounts/security_services.py:326-370 | the account has the chosen password, the token is consumed now, and no other account or token changes |
| `AccountEffects.ResetIs` | backend/apps/accounts/security_services.py:326-370 | exactly when a reset succeeds in reachable rows, and what is left and answered otherwise |
| `AccountEffects.ResetChecksBinding` | backend/apps/accounts/security_services.py:265-360 | in any rows a reset token works exactly while its address and password are those of the account |
| `AccountEffects.VerificationTakesEffect` | backend/apps/accounts/security_services.py:276-322 | the address is verified now, the token is consumed, and nothing else changes |
| `AccountEffects.VerificationIs` | backend/apps/accounts/security_services.py:276-322 | exactly when a verification succeeds in reachable rows, and what is left and answered otherwise |
| `AccountEffects.VerificationChecksBinding` | backend/apps/accounts/security_services.py:265-322 | in any rows a verification works exactly while its address is that of the account and free |
| `AccountEffects.ClaimTakesEffect` | backend/apps/accounts/email_delivery.py:75-91 | the claim notes its attempt exactly on a waiting token that is not due |
| `AccountEffects.FinishTakesEffect` | backend/apps/accounts/email_delivery.py:93-133 | a claimed delivery of a waiting token ends as sent or as failed, with its times |
| `CsrfClient.RequestsAreStarted` | frontend/src/services/api/client.ts:159-183 | forcing starts a request in a new generation; otherwise one is started exactly when nothing is cached and nothing of this generation is out |
| `CsrfClient.ClearStartsAnew` | frontend/src/services/api/client.ts:159-163 | after a clear nothing is cached and nothing of the new generation is under way |
| `CsrfClient.CallersAwait` | frontend/src/services/api/client.ts:165-183 | a caller gets the cached token or an unfinished request of the current generation |
| `CsrfClient.ResponsesFill` | frontend/src/services/api/client.ts:170-177 | a response fills the cache and answers its callers exactly if it carries 64 letters or digits and no clear came in between |
| `CsrfClient.FinishedIsForgotten` | frontend/src/services/api/client.ts:178-180 | a finished request is no longer tracked, and no other is forgotten |
| `CsrfClient.ApiClient.ClearCsrf` | frontend/src/services/api/client.ts:159-163 | a clear starts a new generation with an empty cache |
| `CsrfClient.ApiClient.InitializeCsrf` | frontend/src/services/api/client.ts:165-183 | returns the cached token, the tracked request, or a new request of this generation |
| `CsrfClient.ApiClient.OnResponse` | frontend/src/services/api/client.ts:170-177 | fills the cache only with a well-formed token of a request of this generation |
| `CsrfClient.ApiClient.OnFinally` | frontend/src/services/api/client.ts:178-180 | forgets the request only if it is still the tracked one |
| `CsrfClient.EveryRunKeepsClient` | frontend/src/services/api/client.ts:150-183 | in every interleaving the cached token answered a request of the current generation, the tracked request belongs to it, and each generation has at most one unfinished request |
| `CsrfClient.FreshIsFine` | frontend/src/services/api/client.ts:150-152 | a new client satisfies the invariant, so runs may start there |
| `CsrfClient.CallersShare` | frontend/src/services/api/client.ts:166-168 | a second caller gets the same token or the same request |
| `CsrfClient.LateResponsesAreDropped` | frontend/src/services/api/client.ts:174-175 | a response to a request started before a clear never fills the cache, whatever happens in between |

## Left out

- JSON text: parsing and printing between text and value trees, duplicate keys and lone surrogates; sizes of canonical texts are arbitrary functions of the value.
- The fixture adapter and feedback analysis: the adapter's answer is any value tree.
- `settings` switches, secret-key rotation, SHA-256, HMAC and SMTP: digests are injective, sending succeeds or fails.
- HTTP views, permissions wrappers, throttles, pagination and the React application apart from the CSRF cache.
- Comments, Workspace names and descriptions, clients and finance: little state and no invariant that spans operations.
- `mark_notification_read`: one field; the services never write it back.
- Rows from before the tenant migration (null Profile, period or revision) and CANCELLED tasks.
- Audit rows other than those of Tasks; error messages and the field a validation error names.
- Password validation is a given yes or no; address syntax is not checked, addresses arrive with their canonical form.
- Deleting rows, and creating accounts with their tokens already present.
- Deactivating accounts in runs of the organisation: one deactivation is treated on its own, with the exact condition under which it keeps the ownership rules.
