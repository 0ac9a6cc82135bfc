# Copilot workflow and discovery

A model of the copilot feature of the projects API (`src/api/copilot/`) and proofs about it.

The **workflow** is four tables (requests, opportunities, applications, project members) that six service calls
change: create, update and approve a request, apply to an opportunity, assign a copilot, cancel an opportunity. The
schema has no unique constraint on the copilot tables, so every consistency rule rests on the service code.
`Workflow` states each call as a function of the tables, with its branches and errors in the order of the code.
`Services` is the imperative form, a class that holds the tables and writes them statement by statement, proved
against `Workflow`; it records the run so far. `Invariants` and `Runs` prove what all calls keep and what holds over
whole runs; `Scopes` and `Reopening` prove exactly when active opportunities are unique, opportunities follow their
requests, open requests have different types and fulfilled requests are final; `Effects` proves which guards decide
and what a call may touch.

The **discovery query** filters, orders and pages opportunities, re-joins a second fetch and formats the rows:
`LikePattern`, `Discovery`, `OpportunityPages`, `OpportunityListing`, `Eligibility`, `Timestamps`, on top of
`Ordering` and `Text`. `RequestListing` is the in-memory sort of requests, `ApplicationListing` the list of
applications, `Recipients` the e-mail deduplication.

## Assumptions

- Each call is one atomic step; a call that throws rolls its tables back. Id sequences do not roll back.
- The copilot tables start empty. Memberships start unique among live rows. Ids are at least 1.
- `projectType` in a payload is one of the five enum values. In a patch it may be missing, null, or a value: the
  DTO validates optional properties only when they are neither undefined nor null.
- The caller has passed the permission checks; ids have been parsed from digits.
- The clock is an argument of each call; names and titles are folded to lower case letter by letter.

## Where the code falls short of what it promises

Each point is proved with the exact condition under which the promise is kept, and with inputs that break it.

- At most one active opportunity per project and type is not an invariant of all runs. `Scopes.RunUniqueIff` gives the
  exact condition, a check on opportunities that `updateRequest` does not make. Three ways to break it: a patch with a
  null `projectType`, an approval with a differing type override, an approval under another project's path
  (`Excluded`). Without these three, type-changing updates are harmless (`Scopes.RunCoherent`).
- "No two open requests of one type in a project", the point of the duplicate checks, is lost when a fulfilled request
  is approved again while another open request has its project and type (`Excluded.ReapprovalBreaksOpenDistinct`), and
  by no other call (`Reopening.RunDistinctIff`; a nulled type counts as no type). Likewise, the request of a completed
  opportunity stays fulfilled unless an approval names it (`Reopening.RunCompletedIff`).
- `docs/copilot-opportunities.md` calls the requested-start range inclusive. The query compares stored text, and the
  DTO admits any ISO form. `Timestamps.RangePromiseIff` gives the exact condition on the text. Canonical UTC timestamps
  meet it. A bare date is left out on the first day (`Timestamps.BareDateMissesFirstDay`), a time without a fraction in
  the last second of the last day, such as `T23:59:59Z` (`Timestamps.SecondsMissLastSecond`), and a time with an offset
  goes by its local date (`Timestamps.OffsetPromiseIff`); `Timestamps.MissedStarts` gives inputs.
- `canApplyAsCopilot` stays true after applying for user id 0, because the application lookup treats 0 as absent
  (`Eligibility.EligibilityIsSound` for the condition, `Excluded.ZeroStaysEligible` for a run).

## Model

| member | source | states |
|---|---|---|
| `Services.CopilotServices.CreateRequest` | src/api/copilot/copilot-request.service.ts:219-306 | the call performs `Workflow.CreateRequest` on the tables, as one atomic step that is put on record |
| `Services.CopilotServices.CreateInTransaction` | src/api/copilot/copilot-request.service.ts:238-294 | after a failed approval the inserted request is gone again and only its number stays used |
| `Services.CopilotServices.UpdateRequest` | src/api/copilot/copilot-request.service.ts:322-424 | the call performs `Workflow.UpdateRequest`, on record |
| `Services.CopilotServices.UpdateInTransaction` | src/api/copilot/copilot-request.service.ts:353-421 | not found, immutable, duplicate type, or merge the data and retype the linked opportunities |
| `Services.CopilotServices.ApproveRequest` | src/api/copilot/copilot-request.service.ts:439-463 | the call performs `Workflow.ApproveInternal`, on record |
| `Services.CopilotServices.ApproveRequestInternal` | src/api/copilot/copilot-request.service.ts:497-572 | project, request, type and conflict checks in this order, then request approved and one active opportunity added; needs no valid state, since it runs inside a transaction |
| `Services.CopilotServices.ApplyToOpportunity` | src/api/copilot/copilot-application.service.ts:56-120 | the call performs `Workflow.ApplyToOpportunity`, on record |
| `Services.CopilotServices.FindOrCreateApplication` | src/api/copilot/copilot-application.service.ts:80-112 | returns the existing live application or stores one pending application |
| `Services.CopilotServices.UpsertMember` | src/api/copilot/copilot-opportunity.service.ts:421-458 | an existing copilot or manager is left alone, another member becomes copilot, a non-member is added |
| `Services.CopilotServices.AssignCopilot` | src/api/copilot/copilot-opportunity.service.ts:360-549 | the call performs `Workflow.AssignCopilot`, on record |
| `Services.CopilotServices.AssignInTransaction` | src/api/copilot/copilot-opportunity.service.ts:378-532 | the writes of the transaction, one after the other, end in the state that the workflow states for all tables at once |
| `Services.CopilotServices.CancelOpportunity` | src/api/copilot/copilot-opportunity.service.ts:561-636 | the call performs `Workflow.CancelOpportunity`, on record |
| `Services.CopilotServices.CancelInTransaction` | src/api/copilot/copilot-opportunity.service.ts:574-626 | applications and opportunity canceled in any status, request untouched |
| `Invariants.StepKeepsInv` | src/api/copilot/copilot-opportunity.service.ts:378-626 | every call keeps: one live application per user and opportunity, one live membership per user and project, application statuses that agree with the opportunity, no request without an opportunity or in status new |
| `Invariants.CreateKeepsInv` | src/api/copilot/copilot-request.service.ts:238-294 | createRequest keeps the invariant on success and on rollback |
| `Invariants.UpdateKeepsInv` | src/api/copilot/copilot-request.service.ts:359-421 | updateRequest keeps the invariant |
| `Invariants.ApproveKeepsInv` | src/api/copilot/copilot-request.service.ts:497-572 | approval keeps the invariant for any project path, override and request status |
| `Invariants.ApplyKeepsInv` | src/api/copilot/copilot-application.service.ts:86-112 | applying keeps the invariant |
| `Invariants.AssignKeepsInv` | src/api/copilot/copilot-opportunity.service.ts:395-514 | assignment keeps the invariant |
| `Invariants.CancelKeepsInv` | src/api/copilot/copilot-opportunity.service.ts:591-620 | cancelation keeps the invariant, also of a completed opportunity |
| `Runs.RunInv` | src/api/copilot/copilot-opportunity.service.ts:395-620 | in every state of every run an active opportunity has pending applications only, a completed one exactly one accepted and otherwise canceled ones, a canceled one canceled ones; committed requests are approved or fulfilled and have an opportunity |
| `Runs.FailureRollsBack` | src/api/copilot/copilot-request.service.ts:254-294 | a failing call leaves every row of every table unchanged (that the statements of each transaction come to this is what the `...InTransaction` methods prove, createRequest with one restore); the request number is used up exactly when createRequest fails inside its transaction, which it does only with the active-opportunity conflict |
| `Runs.UnreachableGuards` | src/api/copilot/copilot-opportunity.service.ts:399-419 | in reachable states nobody ever gets "already accepted" or "no associated project", and the immutable-request guard fires for fulfilled requests only |
| `Runs.StepExtends` | src/api/copilot/copilot-opportunity.service.ts:421-514 | no call loses a row, relinks it or changes its author; opportunity status only climbs active, completed, canceled |
| `Runs.RunClimbs` | src/api/copilot/copilot-opportunity.service.ts:395-397 | status climbs along whole runs |
| `Runs.RunExtends` | src/api/copilot/copilot-opportunity.service.ts:421-514 | rows and links persist along whole runs |
| `Runs.AssignedOnce` | src/api/copilot/copilot-opportunity.service.ts:395-397 | an opportunity is assigned successfully at most once in a run |
| `Runs.AcceptedOnce` | src/api/copilot/copilot-opportunity.service.ts:413-502 | over a whole run an opportunity has at most one application that is ever accepted |
| `Runs.StatusChangesBounded` | src/api/copilot/copilot-opportunity.service.ts:494-502 | a run makes at most two status changes for each opportunity it creates (potential function) |
| `Runs.AssignTouchesOneMember` | src/api/copilot/copilot-opportunity.service.ts:421-458 | assignment leaves the accepted user a copilot or manager, changes no role but from another role to copilot for that user, removes nobody, and adds a row exactly when there was no live membership |
| `Runs.AcceptanceIsAssignment` | src/api/copilot/copilot-opportunity.service.ts:413-468 | an application becomes accepted only by a successful assignment of it |
| `Runs.AcceptedStaysStaffed` | src/api/copilot/copilot-opportunity.service.ts:421-458 | whoever is accepted at some point of a run stays copilot or manager of that project to its end |
| `Effects.SucceedsIff` | src/api/copilot/copilot-request.service.ts:247-540 | in reachable states creating, updating, approving and assigning succeed if and only if the guards that the invariant leaves open let them |
| `Effects.CreateStores` | src/api/copilot/copilot-request.service.ts:254-294 | a created request carries the payload, is approved, and comes with one active opportunity of its type |
| `Effects.UpdateStores` | src/api/copilot/copilot-request.service.ts:368-418 | patched keys take the new values, other keys keep theirs and there are no more; an absent type stays, a nulled one goes, a given one reaches the request and its opportunities; status, project and creation time stay |
| `Effects.FailsWithReason` | src/api/copilot/copilot-request.service.ts:231-571 | in any state, reachable or not, a failing call names a complaint that the rows justify, and a call succeeds if and only if no complaint is justified |
| `Effects.LeavesTheRest` | src/api/copilot/copilot-opportunity.service.ts:460-514 | rows that a call is not about stay exactly as they were; only assignment changes memberships |
| `Effects.RequestsStamped` | src/api/copilot/copilot-request.service.ts:254-271 | creation times never change; a request that a successful call is about is updated now; a new one is created now, for a project that exists and is not deleted |
| `Effects.OpportunitiesStamped` | src/api/copilot/copilot-request.service.ts:534-560 | the same for opportunities, a new one being active |
| `Effects.ApplicationsStamped` | src/api/copilot/copilot-application.service.ts:86-112 | the same for applications, a new one being pending, by the caller and to an active opportunity |
| `Scopes.StepUniqueIff` | src/api/copilot/copilot-request.service.ts:407-418 | a step keeps "one active opportunity per project and type" if and only if it is not a successful retyping that makes two active opportunities meet |
| `Scopes.RunUniqueIff` | src/api/copilot/copilot-request.service.ts:371-418 | over a whole run uniqueness holds in every state if and only if every successful retyping was safe when it was made |
| `Scopes.UniqueWithoutRetyping` | src/api/copilot/copilot-request.service.ts:534-571 | when updates carry no type, uniqueness holds for any approval: any project path, any override, fulfilled requests included |
| `Scopes.DuplicateCheckSuffices` | src/api/copilot/copilot-request.service.ts:371-381 | when opportunities follow their requests, the duplicate check on requests already makes every retyping safe |
| `Scopes.StepFollowsIff` | src/api/copilot/copilot-request.service.ts:513-560 | a step keeps "each opportunity has its request's project and type" if and only if it fails or nulls no type and approves under the request's own project and type |
| `Scopes.RunFollowsIff` | src/api/copilot/copilot-request.service.ts:371-560 | that holds in all states of a run if and only if every successful call was of this kind (aligned) when it was made |
| `Scopes.RunCoherent` | src/api/copilot/copilot-request.service.ts:371-421 | in a run of aligned calls, type-changing updates included: at most one active opportunity per project and type, each opportunity has its request's project and type, active ones belong to approved requests |
| `Scopes.InnerConflictUnreachable` | src/api/copilot/copilot-request.service.ts:247-271 | in such runs createRequest never meets an active opportunity once its duplicate check has passed |
| `Reopening.StepDistinctIff` | src/api/copilot/copilot-request.service.ts:506-560 | a step keeps "open requests of a project have different types" if and only if it is not a successful approval of a fulfilled request beside an open one of its project and type |
| `Reopening.RunDistinctIff` | src/api/copilot/copilot-request.service.ts:371-560 | over a whole run that property holds in every state if and only if no successful approval reopened a fulfilled request beside an open twin |
| `Reopening.StepCompletedIff` | src/api/copilot/copilot-request.service.ts:534-560 | a step keeps "the request of a completed opportunity is fulfilled" if and only if it is not a successful approval of a request that has a completed opportunity |
| `Reopening.RunCompletedIff` | src/api/copilot/copilot-opportunity.service.ts:504-514 | the same over whole runs, with every successful approval judged when it was made |
| `Reopening.WithoutReapproval` | src/api/copilot/copilot-request.service.ts:506-560 | a run in which no successful call approves a fulfilled request has both properties in every state, whatever else it does |
| `Reopening.StepFinalIff` | src/api/copilot/copilot-request.service.ts:534-560 | a step ends the finality of a fulfilled request without active opportunities if and only if it successfully approves that very request |
| `Reopening.FulfilledIsFinalIff` | src/api/copilot/copilot-opportunity.service.ts:504-514 | for the rest of a run a fulfilled request keeps its status and data, gains no opportunity, and its opportunities keep their types and are not active, if and only if none is active now and no later call approves that request |
| `Reopening.FulfilledIsFinal` | src/api/copilot/copilot-opportunity.service.ts:504-514 | in a run of aligned calls it is final until a call approves it |
| `Excluded.NullPatchBreaksUniqueness` | src/api/copilot/copilot-request.service.ts:371-418 | a patch with a null type skips both the duplicate check and the retyping; four calls then give two active opportunities of one type |
| `Excluded.OverrideBreaksUniqueness` | src/api/copilot/copilot-request.service.ts:519-571 | a type override followed by a retyping update does so in three calls |
| `Excluded.OtherProjectBreaksUniqueness` | src/api/copilot/copilot-request.service.ts:504-571 | so does an approval under another project's path, in four calls |
| `Excluded.ReapprovalBreaksOpenDistinct` | src/api/copilot/copilot-request.service.ts:506-560 | in six calls, the last of which is the only approval, a fulfilled request is put beside an open request of the same type and its completed opportunity is left with a request that is not fulfilled |
| `Excluded.ZeroStaysEligible` | src/api/copilot/copilot-opportunity.service.ts:1293-1323 | after a created request a copilot with user id 0 is shown as eligible, applies, and is still shown as eligible; applying again returns the stored application |
| `LikePattern.SearchIsLiteral` | src/api/copilot/copilot-opportunity.service.ts:894-914 | `LIKE` with the escaped pattern holds exactly when the search text occurs in the value, for all texts, against a full matcher for `%`, `_` and escape |
| `LikePattern.SearchPatternWellFormed` | src/api/copilot/copilot-opportunity.service.ts:1173-1175 | the pattern has no dangling escape |
| `LikePattern.UnescapeEscape` | src/api/copilot/copilot-opportunity.service.ts:1173-1175 | escaping can be undone, so it is injective |
| `Discovery.BuildOpportunityConditions` | src/api/copilot/copilot-opportunity.service.ts:862-993 | the pushed conditions hold together for an opportunity if and only if every filter that is set admits it, which is said of the linked rows themselves: names, request fields, skills, times and applications |
| `Discovery.SearchedColumns` | src/api/copilot/copilot-opportunity.service.ts:903-914 | a search matches exactly when one of the columns contains the text |
| `Discovery.ColumnsHoldTexts` | src/api/copilot/copilot-opportunity.service.ts:903-914 | those columns hold exactly the title, the overview, the project name, the type and the skills text of the linked rows |
| `Discovery.SkillsAmong` | src/api/copilot/copilot-opportunity.service.ts:916-932 | the skill condition selects those with a requested skill id or name, in any letter case |
| `OpportunityPages.OrderIsStrictTotal` | src/api/copilot/copilot-opportunity.service.ts:1001-1053 | each sort field, direction and grouping gives a strict total order |
| `OpportunityPages.OrderIsUnique` | src/api/copilot/copilot-opportunity.service.ts:1001-1053 | the ordered list is the only one: neither scan order nor sort algorithm shows |
| `OpportunityPages.OrderedRightly` | src/api/copilot/copilot-opportunity.service.ts:1030-1052 | status groups active, canceled, completed; missing values last in both directions; the rest ascending or descending; ties by id |
| `OpportunityPages.ListedInRowOrder` | src/api/copilot/copilot-opportunity.service.ts:1001-1053 | within a group the times, statuses, types, folded names and titles or stored starts of the rows ascend or descend, rows without a text come last, ties go by id |
| `OpportunityPages.DefaultOrder` | src/api/copilot/copilot-opportunity.service.ts:1025-1052 | the default listing is grouped and newest first |
| `OpportunityPages.OrderedExactly` | src/api/copilot/copilot-opportunity.service.ts:814-843 | the ordered list has each matching opportunity exactly once |
| `OpportunityPages.PagesAreComplete` | src/api/copilot/copilot-opportunity.service.ts:807-854 | pages queried one by one, each query reading the table in an order of its own, concatenate to the ordered list, and each reports the full total |
| `Ordering.PagesDisjoint` | src/api/copilot/copilot-opportunity.service.ts:812-840 | no entry is on two pages |
| `Ordering.PagesPartition` | src/api/copilot/copilot-opportunity.service.ts:812-840 | pages 1 to ceil(total / perPage) are the list, later ones are empty |
| `Ordering.PageIs` | src/api/copilot/copilot-opportunity.service.ts:812-840 | a page has the entries that LIMIT and OFFSET select |
| `OpportunityListing.RejoinKeepsPageOrder` | src/api/copilot/copilot-opportunity.service.ts:231-241 | re-joining restores the page order for any fetch order; vanished rows are dropped and the rest keep their order |
| `Text.DecimalRoundTrip` | src/api/copilot/copilot-opportunity.service.ts:188-235 | an id survives the way through decimal text |
| `OpportunityListing.BatchedMembership` | src/api/copilot/copilot-opportunity.service.ts:1334-1367 | one batched membership query answers for each row as its own query would |
| `OpportunityListing.ListRowsAreDetails` | src/api/copilot/copilot-opportunity.service.ts:231-258 | every row of a list response equals what reading that id returns to the same caller |
| `OpportunityListing.ListFollowsPage` | src/api/copilot/copilot-opportunity.service.ts:237-262 | a list response has the ids of its page, in order |
| `OpportunityListing.DetailAnswers` | src/api/copilot/copilot-opportunity.service.ts:275-320 | a text that is not numeric is refused, a number without a live opportunity is unknown, and any other text is answered like the plain number |
| `OpportunityListing.ResponsePromises` | src/api/copilot/copilot-opportunity.service.ts:1190-1323 | reading a live opportunity shows the ids, status, type and times of its row; exactly the documented request fields, unchanged; project id and name to admins and managers only; id, status and times of the application to a caller with a numeric id; and that the caller can apply if and only if a human copilot with a numeric id, an active opportunity, no live membership, and no live application (unnoticed for id 0) |
| `Eligibility.EligibilityIsSound` | src/api/copilot/copilot-opportunity.service.ts:1293-1323 | a caller whom the response tells that they can apply can: one new pending application, except that a user with id 0 who applied before gets that application back; afterwards the response says so no more if and only if the user id is not 0 |
| `Eligibility.ApplyingTwice` | src/api/copilot/copilot-application.service.ts:86-112 | applying again changes nothing and returns the same application |
| `Eligibility.ApplicationFilterPartitions` | src/api/copilot/copilot-opportunity.service.ts:954-990 | `applied=false` and the four application statuses split the selection into five disjoint parts whose totals add up |
| `Timestamps.TextOrderIsChronological` | src/api/copilot/copilot-opportunity.service.ts:934-944 | text order on canonical UTC timestamps is chronological order (section 5.1 of RFC 3339) |
| `Timestamps.GregorianDay` | src/api/copilot/copilot-opportunity.service.ts:1146-1152 | day numbers are those of the Gregorian calendar, by its closed formula |
| `Timestamps.DateBoundary` | src/api/copilot/copilot-opportunity.service.ts:1128-1153 | a bare date becomes the first or last millisecond of its UTC day |
| `Timestamps.TimestampBoundary` | src/api/copilot/copilot-opportunity.service.ts:1128-1153 | a canonical timestamp as a bound means its own instant |
| `Timestamps.BoundKinds` | src/api/copilot/copilot-opportunity.service.ts:1128-1153 | a missing or empty bound is none, and one that does not parse is refused |
| `Timestamps.BoundReads` | src/api/copilot/copilot-opportunity.service.ts:1141-1146 | white space around a bound does not count; a bare date is completed, any other text is parsed as it is |
| `Timestamps.RangeByInstants` | src/api/copilot/copilot-opportunity.service.ts:934-944 | whatever text the bounds have, bare dates and timestamps included: once they parse, a stored canonical timestamp is selected exactly when its instant lies between the instants of the bounds that are given |
| `Timestamps.RangePromiseIff` | src/api/copilot/copilot-opportunity.service.ts:934-944 | for any stored text: the ranges that select it are exactly those that hold its UTC day if and only if the text lies between the canonical texts of the first and last millisecond of that day |
| `Timestamps.DatedTextSelected` | src/api/copilot/copilot-opportunity.service.ts:934-944 | the exact selection of any stored text that starts with a date, by two bare dates |
| `Timestamps.DateRangeSelectsDays` | src/api/copilot/copilot-opportunity.service.ts:934-944 | two bare dates select exactly the canonical timestamps on those days and between |
| `Timestamps.BareDateMissesFirstDay` | src/api/copilot/copilot-opportunity.service.ts:934-944 | a stored bare date meets the promised inclusive range if and only if it is not the first day, or the range is empty |
| `Timestamps.SecondsMissLastSecond` | src/api/copilot/copilot-opportunity.service.ts:934-944 | a stored UTC time without a fraction does if and only if it is not the last second of the last day, or the range is empty |
| `Timestamps.MissedStarts` | src/api/copilot/copilot-opportunity.service.ts:934-944 | `T23:59:59Z` on the last day and `T00:00:00+00:00` on the first are left out; `T23:00:00-05:00` is selected by the day it is written with |
| `Timestamps.OffsetsGoByLocalDate` | src/api/copilot/copilot-opportunity.service.ts:934-944 | a stored time with an offset is selected by the local date it is written with, local midnight of the first day left out |
| `Timestamps.OffsetPromiseIff` | src/api/copilot/copilot-opportunity.service.ts:934-944 | such a time meets the promise in all ranges if and only if its UTC day is the written date and it is not local midnight |
| `RequestListing.CompareIsPreorder` | src/api/copilot/copilot-request.service.ts:756-773 | the comparison is a total preorder on dates alone and on other values alone |
| `RequestListing.MixedIsNotAPreorder` | src/api/copilot/copilot-request.service.ts:756-773 | it is not when dates and other values are mixed |
| `RequestListing.SortValuesHomogeneous` | src/api/copilot/copilot-request.service.ts:714-745 | no sort field mixes them |
| `RequestListing.StableSort` | src/api/copilot/copilot-request.service.ts:706-746 | the sort is stable in both directions (section 23.1.3.30 of ECMA-262) and no other result is |
| `RequestListing.SortedRequests` | src/api/copilot/copilot-request.service.ts:138-156 | the list has the fetched requests once each, in order, equal ones in fetch order |
| `RequestListing.ListedInRowOrder` | src/api/copilot/copilot-request.service.ts:706-773 | read from the rows: creation times, statuses or folded names, titles and types (empty when missing) ascend or descend as asked, and equal ones keep their fetch order |
| `RequestListing.RequestPagesPartition` | src/api/copilot/copilot-request.service.ts:140-155 | the pages concatenate to the sorted list and `total` is its length |
| `RequestListing.PageOfRequests` | src/api/copilot/copilot-request.service.ts:140-150 | page 1 and 20 requests by default, each page starting after the ones before it |
| `ApplicationListing.RolesByUserId` | src/api/copilot/copilot-application.service.ts:182-196 | the Map holds the one role of each live member and nobody else |
| `ApplicationListing.ListApplications` | src/api/copilot/copilot-application.service.ts:147-221 | nothing for a missing opportunity; else one page of its applications, none twice and by creation time in the requested direction; ids, notes, status, times and the one project role for admins and project managers, applicant, status and creation time for others |
| `Recipients.DeduplicateRecipientsByEmail` | src/api/copilot/copilot-notification.service.ts:429-483 | the two loops compute the first entry of each address over direct and fallback recipients |
| `Recipients.FirstOfEachAre` | src/api/copilot/copilot-notification.service.ts:451-458 | exactly the first-seen entries are kept, in first-seen order |
| `Recipients.UnresolvedAre` | src/api/copilot/copilot-notification.service.ts:438-448 | the ids looked up are the numeric ids of exactly the recipients without an address, each once |
| `Recipients.DeduplicatedPromises` | src/api/copilot/copilot-notification.service.ts:429-483 | every entry lists somebody, by an address without capitals or surrounding white space and by the trimmed handle or else the address; everybody with an address is listed, users found for looked-up ids included; addresses that differ at most in letter case share one entry; found users only append |
| `Recipients.DeduplicatingAgain` | src/api/copilot/copilot-notification.service.ts:429-483 | deduplicating the result changes nothing |

## Left out

- Database isolation: calls are atomic, so nothing is said about two calls whose checks and writes interleave.
- Writers of the same tables in other modules (invites, member updates, the member action that completes copilot
  requests), deletion of rows, and the application status `invited`, which no modelled call sets.
- Permission checks, JWT handling, controllers, e-mail sending, the event bus, member lookups (an arbitrary function
  in `Recipients`), logging.
- Audit fields (`createdBy`, `updatedBy`, `deletedBy`) and the error for an audit user id that is not numeric.
- `normalizeOpportunityQuery` apart from its date boundaries: `Filters` is its result; coercion of query strings,
  aliases, length limits and the range-order check are not modelled.
- `parseSortExpression`: sort fields and directions are enums here.
- JSON other than null, numbers, strings and the skills array; JSON text of a string with characters to escape.
- Case folding beyond the letters A to Z, and database collations: text is ordered by code unit.
- Project ids beyond the safe integer range, where the number in request data would lose digits.
- How the database finds rows: a fetch is any list of exactly the right rows, in any order.
- Formatting of requests (`formatRequest`) and type labels.
- Date parsing of text that is neither a bare date nor a canonical UTC timestamp: an arbitrary function
  (`ReadsCanonical`).
- Dates outside the years 0 to 9999.
