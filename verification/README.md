# civilrm data-access core in Dafny

The model covers the owner-scoped data-access layer of civilrm, a civic-engagement CRM built on Convex. This layer is the set of query and mutation handlers over the tables `users`, `representatives`, `interactions`, `issues`, `tasks` and `followups`. It also covers the small pure helpers in the issue form, the interaction form and the list pages.

Every handler follows the same steps:

- It resolves the caller through the `by_token` index. There are three failures: no identity, no user row, or more than one row for `.unique()`.
- It reads or writes only documents whose `userId` is the caller's.
- It checks that foreign ids name documents the caller owns.
- It writes through partial patches.

List handlers pick an index path from the filters that were supplied. They apply the filters as residual predicates and return the rows in index order.

How the model represents the system:

- **Tables.** Each table is a map from id to record. Ids are issued in increasing order (`Store.Table`), so ascending id is creation order.
- **Index scans.** A scan returns the rows whose leading key fields equal the bound values, sorted by the next key field and then by creation order (`Index.IndexScan`).
- **Handlers.** Every handler is a pure function returning `Result`. Its error cases are the handler's `throw`s, in the order the code reaches them.
- **Records.** Each record outside `users` carries its owner in a `userId` field, and `reminder_sent` is a required boolean of tasks and follow-ups. Both are fixed by the record datatypes in `Schema`.
- **Enums.** Storage-level validation is switched off in the schema. Enum closure therefore comes only from the argument validators, and these are modelled by `Schema.Decode`.

Modules:

- `Results`: `Option` and `Result`.
- `Store`: tables, insert, patch, collect, filter, ordering.
- `Schema`: enums, records, indexed fields, declared indexes.
- `Index`: index ranges and scans.
- `Access`: caller resolution, ownership and reference checks, single reads.
- `Issues`, `Tasks`, `Interactions`, `Followups`, `Representatives`, `Users`: the handlers of each file under `convex/`.
- `Text`: `String.prototype.trim` and the date-input day.
- `IssueForm`, `InteractionForm`, `ListViews`: the UI helpers.

## Model

| member | source | states |
|---|---|---|
| Schema.Decode | convex/schema.ts:31-35 | A union validator accepts a string only as the literal of one of its members, and rejects a string no member spells |
| Schema.DecodeExact | convex/schema.ts:90-101 | With distinct literals a validator maps a string to a member exactly when that member's literal is the string |
| Schema.IssueEnumsClosed | convex/schema.ts:90-101 | Issue status and priority accept exactly their five and three literals |
| Schema.RepresentativeAndInteractionEnumsClosed | convex/schema.ts:31-71 | Level, interaction type, outcome and communication style accept exactly their literals |
| Schema.TaskAndFollowupEnumsClosed | convex/schema.ts:120-151 | Task status, follow-up type and follow-up status accept exactly their literals |
| Schema.IssueLiteralsInjective | convex/schema.ts:90-101 | Equal status or priority literals mean equal enum values, so an index match on the literal is a match on the value |
| Schema.TaskLiteralsInjective | convex/schema.ts:120-130 | Equal task status or priority literals mean equal enum values, so a task index match on the literal is a match on the value |
| Schema.IndexesOf | convex/schema.ts:81-158 | Every issue and representative index leads with `userId`; among task and follow-up indexes exactly `by_issue` and `by_interaction` do not, and they are keyed only on the foreign id |
| Store.Insert | convex/issues.ts:146-149 | An insert adds one row under an id not used before and greater than every existing id, and changes no other row |
| Store.Put | convex/issues.ts:212 | A patch write replaces the one existing row and keeps every other row and the key set |
| Store.FilterMembers | convex/representatives.ts:36-45 | A residual filter keeps exactly the scanned documents that satisfy it |
| Store.FilterKeepsOrder | convex/tasks.ts:58-76 | A residual filter keeps the scan's index order |
| Store.FilterIdle | convex/tasks.ts:58-73 | Applying a filter that every scanned document already meets changes nothing |
| Store.ReverseDescending | convex/interactions.ts:63-65 | Reading an ascending scan in descending order yields the same documents in descending key order |
| Store.CreationOrderUnique | convex/issues.ts:66-69 | Two lists in creation order with the same documents are equal |
| Index.IndexScanExact | convex/issues.ts:41-69 | A scan returns exactly the stored documents whose bound key fields equal the range, in ascending key order |
| Index.IndexScanCreationOrder | convex/issues.ts:41-69 | When every key field is bound, the scan is in creation order |
| Access.ResolveCaller | convex/issues.ts:22-36 | No identity is unauthenticated; no user row with the token is "User not found"; the sole row with the token is the caller; nothing else succeeds |
| Access.TokenScanExact | convex/schema.ts:24 | The `by_token` lookup finds exactly the user rows carrying the token, in creation order |
| Access.ResolveCallerInjective | convex/issues.ts:27-36 | Two identities resolve to the same user row only if they are the same identity |
| Access.Authorize | convex/issues.ts:197-206 | A missing id is "not found", another user's document is "unauthorized", and only the caller's own document passes |
| Access.CheckReference | convex/interactions.ts:152-156 | A foreign id passes exactly when it names an existing document owned by the caller, otherwise "Invalid ... ID" |
| Access.CheckOptionalReference | convex/interactions.ts:158-164 | An absent optional foreign id always passes; a supplied one is checked as above |
| Access.GetOwned | convex/issues.ts:76-102 | A single read checks the identity, then existence, then the user lookup, then the owner, and returns the document only to its owner |
| Issues.IssueRange | convex/issues.ts:41-67 | Status and priority choose `by_user_status_priority`, status `by_user_status`, priority `by_user_priority`, else `by_user`; each binds the caller first and the supplied filters after |
| Issues.ListMyIssues | convex/issues.ts:22-36 | Listing fails exactly when the caller does not resolve, with the resolution's error |
| Issues.IssueRangeMembers | convex/issues.ts:41-67 | An issue lies in the chosen range exactly when it is the caller's and matches every supplied filter |
| Issues.ListMyIssuesExact | convex/issues.ts:41-69 | The list is exactly the caller's stored issues matching every supplied filter, in creation order |
| Issues.GetIssueDetails | convex/issues.ts:74-104 | "Issue not found" is reported before the user lookup, and another user's issue is "Unauthorized access to issue" |
| Issues.CreateIssue | convex/issues.ts:145-149 | Creating inserts one issue owned by the caller that carries exactly the arguments, with no reference check; a failed lookup inserts nothing |
| Issues.CreateThenGet | convex/issues.ts:145-149 | A created issue reads back, for its creator, as created |
| Issues.InsertThenList | convex/issues.ts:41-69 | An issue newer than every stored one joins exactly its owner's listings whose filters it matches, at the end, and leaves every other listing as it was |
| Issues.CreateThenList | convex/issues.ts:41-69 | After a create, the creator's lists gain the new issue at the end when it matches their filters, and every other user's lists are unchanged |
| Issues.PatchIssue | convex/issues.ts:207-212 | A patch never changes the owner, and an empty patch changes nothing |
| Issues.PatchIssueCompose | convex/issues.ts:207-212 | Two patches in a row equal one merged patch in which the later fields win, and repeating a patch changes nothing more |
| Issues.StatusPatchKeepsFields | convex/issues.ts:249 | A status-only patch changes the status and no other field |
| Issues.PatchOwnedIssue | convex/issues.ts:197-212 | A write succeeds exactly on an existing issue of the caller, with not-found before unauthorized; only that issue changes, by the patch |
| Issues.UpdateIssue | convex/issues.ts:197-212 | `updateIssue` succeeds exactly when the caller resolves and owns an existing issue; otherwise it fails with the resolution error, "not found" for a missing issue, or "unauthorized" for another user's; on success only that issue is replaced, by its patch, and no other table changes |
| Issues.ArchiveIssue | convex/issues.ts:237-249 | Archiving is the owner-checked update that sets the status to archived and changes nothing else |
| Issues.ForeignIssueRejected | convex/issues.ts:197-206 | Another user's issue can be neither read nor written, and the failed write changes nothing |
| Tasks.TaskRange | convex/tasks.ts:35-56 | Status comes first, then priority, then the issue, then `by_user_due_date`; every path except issue-only leads with the caller |
| Tasks.ListMyTasks | convex/tasks.ts:58-73 | Every listed task satisfies every supplied filter, and listing fails exactly when the caller does not resolve |
| Tasks.TaskRangeMembers | convex/tasks.ts:35-56 | A task lies in the range exactly when it matches the bound filters and, off the issue-only path, is the caller's |
| Tasks.ListMyTasksMembers | convex/tasks.ts:35-78 | A document is listed exactly when it is stored, matches every filter and, off the issue-only path, is the caller's |
| Tasks.ListMyTasksExact | convex/tasks.ts:35-78 | Off the issue-only path the list is exactly the caller's matching tasks |
| Tasks.ListMyTasksIssueOnly | convex/tasks.ts:47-50 | On the issue-only path every stored task with that issue is listed, whoever owns it |
| Tasks.ListMyTasksOrder | convex/tasks.ts:51-76 | With no filters the list is in ascending due-date order; with filters it is in creation order |
| Tasks.ListMyTasksRefilter | convex/tasks.ts:58-73 | Re-applying the residual filters to the list changes nothing |
| Tasks.ForeignTaskListed | convex/tasks.ts:47-50 | One user filtering by an issue id alone is shown another user's task |
| Tasks.ListMyTasksOwned | convex/tasks.ts:47-50 | The owner-bound listing fails exactly when the caller does not resolve |
| Tasks.ListMyTasksOwnedExact | convex/tasks.ts:35-78 | The owner-bound listing is exactly the caller's matching tasks on every path, and equals the listing as written off the issue-only path |
| Tasks.GetTaskDetails | convex/tasks.ts:83-112 | A single task read reports not-found first and returns a task only to its owner |
| Tasks.CreateTask | convex/tasks.ts:149-162 | A missing or foreign issue id is "Invalid issue ID" with nothing inserted; otherwise one caller-owned task with the arguments and `reminder_sent` false |
| Tasks.CreateTaskThenGet | convex/tasks.ts:157-162 | A created task reads back, for its creator, as created with its reminder not sent |
| Tasks.PatchTask | convex/tasks.ts:224-226 | A task patch never changes the owner, and an empty patch changes nothing |
| Tasks.PatchTaskIdempotent | convex/tasks.ts:224-226 | Applying the same task patch twice equals applying it once |
| Tasks.UpdateTask | convex/tasks.ts:182-226 | Ownership is checked before the issue id; any failure writes nothing; success changes only that task, by the patch, `reminder_sent` included |
| Tasks.UpdateTaskThenGet | convex/tasks.ts:202-226 | After an update the owner reads back the patched task |
| Tasks.CompleteTask | convex/tasks.ts:251-263 | Completing is the owner-checked update that sets the status to done and changes nothing else |
| Interactions.InteractionRange | convex/interactions.ts:35-46 | The scan is always `by_user_date` bound to the caller, with the date window as lower and upper bounds when given |
| Interactions.ListMyInteractions | convex/interactions.ts:18-32 | Listing fails exactly when the caller does not resolve, with the resolution's error |
| Interactions.InteractionRangeMembers | convex/interactions.ts:35-46 | An interaction lies in the range exactly when it is the caller's and its date is within the window, both ends included; the scan key is the date |
| Interactions.ListMyInteractionsExact | convex/interactions.ts:35-67 | The list is exactly the caller's interactions matching the representative, issue and date filters, in descending date order |
| Interactions.GetInteractionDetails | convex/interactions.ts:72-102 | A single interaction read reports not-found first and returns an interaction only to its owner |
| Interactions.LogInteraction | convex/interactions.ts:152-170 | The representative is checked before the optional issue; a failed check inserts nothing; the new interaction is the caller's and carries the arguments |
| Interactions.LogThenGet | convex/interactions.ts:167-170 | A logged interaction reads back, for its author, as logged |
| Interactions.PatchInteraction | convex/interactions.ts:177-207 | A patch never changes the owner or the representative, and an absent issue id keeps the stored link |
| Interactions.PatchInteractionIdempotent | convex/interactions.ts:243-249 | Applying the same interaction patch twice equals applying it once |
| Interactions.UpdateInteraction | convex/interactions.ts:226-249 | Ownership is checked, then the issue id; a failure writes nothing; success changes only that interaction and never its representative |
| Followups.FollowupRange | convex/followups.ts:36-53 | Status chooses `by_user_status`, an interaction id alone chooses `by_interaction` (not bound to the owner), else `by_user_due_date` |
| Followups.ListMyFollowups | convex/followups.ts:55-73 | Every listed follow-up satisfies every supplied filter, and listing fails exactly when the caller does not resolve |
| Followups.FollowupRangeMembers | convex/followups.ts:36-53 | A follow-up lies in the range exactly when it matches the bound filters and, off the interaction-only path, is the caller's |
| Followups.ListMyFollowupsMembers | convex/followups.ts:36-73 | A document is listed exactly when it is stored, matches every filter and, off the interaction-only path, is the caller's |
| Followups.ListMyFollowupsExact | convex/followups.ts:36-73 | Off the interaction-only path the list is exactly the caller's matching follow-ups |
| Followups.ListMyFollowupsInteractionOnly | convex/followups.ts:42-47 | On the interaction-only path every stored follow-up of that interaction is listed, whoever owns it |
| Followups.ListMyFollowupsOrder | convex/followups.ts:48-71 | With no filters the list is in ascending due-date order; with filters it is in creation order |
| Followups.ForeignFollowupListed | convex/followups.ts:42-47 | One user filtering by an interaction id alone is shown another user's follow-up |
| Followups.ListMyFollowupsOwned | convex/followups.ts:42-47 | The owner-bound listing fails exactly when the caller does not resolve |
| Followups.ListMyFollowupsOwnedExact | convex/followups.ts:36-73 | The owner-bound listing is exactly the caller's matching follow-ups on every path, and equals the listing as written off the interaction-only path |
| Followups.GetFollowupDetails | convex/followups.ts:86-106 | "Follow-up not found" is reported first, and another user's follow-up is unauthorized |
| Followups.CreateFollowup | convex/followups.ts:143-154 | A missing or foreign interaction is "Invalid interaction ID" with nothing inserted; otherwise one caller-owned follow-up with the arguments and `reminder_sent` false |
| Followups.CreateFollowupThenGet | convex/followups.ts:149-154 | A created follow-up reads back, for its creator, as created |
| Followups.PatchFollowup | convex/followups.ts:161-177 | A patch never changes the owner or the interaction |
| Followups.PatchFollowupIdempotent | convex/followups.ts:207-212 | Applying the same follow-up patch twice equals applying it once |
| Followups.UpdateFollowup | convex/followups.ts:196-212 | A missing or foreign follow-up is rejected with no write; success changes only that follow-up, by the patch |
| Followups.CompleteFollowup | convex/followups.ts:237-249 | Completing is the owner-checked update that sets the status to completed and changes nothing else |
| Representatives.OwnerRange | convex/representatives.ts:31-33 | The scan is `by_user` bound to the caller |
| Representatives.ListMyRepresentatives | convex/representatives.ts:12-28 | Listing fails exactly when the caller does not resolve, with the resolution's error |
| Representatives.ListMyRepresentativesExact | convex/representatives.ts:31-47 | The list is exactly the caller's representatives matching the level and district filters, in creation order |
| Representatives.EmptyDistrictIgnored | convex/representatives.ts:41 | An empty district filter lists the same as no district filter |
| Representatives.GetRepresentativeDetails | convex/representatives.ts:60-80 | A single representative read reports not-found first and returns a representative only to its owner |
| Representatives.AddRepresentative | convex/representatives.ts:132-136 | Adding inserts one caller-owned representative with exactly the arguments, with no reference check |
| Representatives.AddThenGet | convex/representatives.ts:52-80 | The owner reads back a freshly added representative with exactly the arguments it was added with |
| Representatives.AddThenList | convex/representatives.ts:31-47 | An added representative is listed for its owner exactly under the filters it matches |
| Representatives.PatchRepresentative | convex/representatives.ts:199-205 | A patch never changes the owner, and a patch without a level keeps the level |
| Representatives.PatchRepresentativeIdempotent | convex/representatives.ts:199-205 | Applying the same representative patch twice equals applying it once |
| Representatives.UpdateRepresentative | convex/representatives.ts:189-205 | A missing or foreign representative is rejected with no write; success changes only that representative, by the patch |
| Users.AllUsers | convex/users.ts:29 | A full read of `users` returns every user row, in creation order |
| Users.AllUsersFirstOldest | convex/users.ts:29-34 | The full read is empty only for an empty table, and its first row is the oldest |
| Users.GetMyProfile | convex/users.ts:29-34 | The profile is the oldest user row, or nothing exactly when there are no users |
| Users.CreateUser | convex/users.ts:39-46 | Creating always inserts one fresh default row |
| Users.CreateUserTwice | convex/users.ts:39-46 | Two creations add two distinct rows, so creation is not idempotent |
| Users.CreateUserKeepsCallers | convex/users.ts:41-45 | A created profile row has no token, so no identity's resolution changes |
| Users.GetOrCreateUser | convex/users.ts:8-22 | With rows present the oldest is returned and nothing is written; otherwise exactly one default row is inserted and returned |
| Users.GetOrCreateUserStable | convex/users.ts:8-22 | A second call writes nothing and returns the same row |
| Users.UpdateProfile | convex/users.ts:50-59 | Any existing row is patched in name and email only, with no ownership check; a missing row is an error with no write |
| Users.UpdateProfileKeepsCallers | convex/users.ts:50-59 | Updating a profile changes no identity's resolution |
| Text.TrimStart | components/issues/IssueForm.tsx:68 | Leading trim leaves the suffix that starts at the first non-space character |
| Text.TrimEnd | components/issues/IssueForm.tsx:68 | Trailing trim leaves the prefix that ends at the last non-space character |
| Text.Trim | components/issues/IssueForm.tsx:68 | `trim()` is a slice with no white space at either end, and it is empty exactly when the input is all white space |
| Text.TrimFixed | components/issues/IssueForm.tsx:68 | A string is its own trim exactly when it is empty or has no white space at either end |
| Text.TrimIdempotent | components/issues/IssueForm.tsx:68 | Trimming twice equals trimming once |
| Text.DayStart | components/issues/IssueForm.tsx:45-47 | A timestamp shown in a date input reads back as midnight UTC of its day |
| Text.DayStartUnique | components/issues/IssueForm.tsx:45-47 | Midnight of a day is the only day-aligned time within that day |
| IssueForm.LoadIssue | components/issues/IssueForm.tsx:37-55 | Loading an issue copies its fields, shows missing lists as empty, and shows the target date as midnight UTC of its day, a zero date as none |
| IssueForm.AddEntry | components/issues/IssueForm.tsx:67-75 | Adding appends the trimmed draft only when it is non-blank and not yet listed, clearing the input; a duplicate-free list of trimmed entries stays so |
| IssueForm.AppendKeepsClean | components/issues/IssueForm.tsx:67-75 | Appending a fresh, non-blank, trimmed entry keeps the list duplicate-free, trimmed and non-blank |
| IssueForm.RemoveEntry | components/issues/IssueForm.tsx:76-81 | Removing deletes every equal entry and keeps the others, in order |
| IssueForm.RemoveAbsent | components/issues/IssueForm.tsx:96-101 | Removing an entry that is not listed changes nothing |
| IssueForm.RemoveEntryIdempotent | components/issues/IssueForm.tsx:119-126 | Removing twice equals removing once |
| IssueForm.RemoveAppended | components/issues/IssueForm.tsx:76-81 | Removing the value last appended to a list without it gives back the list |
| IssueForm.AddThenRemove | components/issues/IssueForm.tsx:84-101 | Removing an entry that was just added gives back the list from before the add |
| IssueForm.RemoveEntryKeepsClean | components/issues/IssueForm.tsx:104-126 | Removal keeps a clean list (duplicate-free, trimmed, non-blank) clean |
| IssueForm.NonEmpty | components/issues/IssueForm.tsx:149-154 | An empty list is sent as undefined, and any other list as itself |
| IssueForm.SubmitIssueForm | components/issues/IssueForm.tsx:128-162 | An empty title, description or notes shows the required-fields error and sends nothing; otherwise it creates when new and updates the edited id, sending title, description, status, priority, tags, notes and the target date as the form holds them, and each of the key-point and success-criterion lists as it stands or, when empty, undefined, on create and on update alike |
| IssueForm.CreateThenLoad | components/issues/IssueForm.tsx:139-161 | A created issue loaded back into the form shows exactly the submitted form |
| IssueForm.EditThenLoad | components/issues/IssueForm.tsx:139-159 | As written, an edit reloads as saved when it keeps its lists non-empty, or they were empty, and sets or keeps the date |
| IssueForm.EmptiedListsPersist | components/issues/IssueForm.tsx:149-154 | As written, emptying both the key points and the success criteria of a stored issue and saving leaves both stored lists in place, so the reloaded form differs from the saved one |
| IssueForm.EmptiedListKept | components/issues/IssueForm.tsx:149-154 | As written, on any issue, an edit that empties the key points or the success criteria leaves that stored list unchanged |
| IssueForm.SubmitIssueFormCorrected | components/issues/IssueForm.tsx:149-159 | Corrected submit: the lists are sent as they stand when editing; validation and creation are unchanged |
| IssueForm.EditThenLoadCorrected | components/issues/IssueForm.tsx:139-159 | With the correction, every saved edit that sets or keeps the date reloads as the saved form, emptied lists included |
| InteractionForm.LoadInteraction | components/interactions/InteractionForm.tsx:18-31 | The form starts from the edited interaction, with each missing feedback field empty, or from a call dated now with a neutral outcome, nothing selected, no follow-up and empty text and lists |
| InteractionForm.AddWhatWorked | components/interactions/InteractionForm.tsx:78-89 | A non-blank draft is appended trimmed, repeats allowed, and the input cleared; a blank draft changes nothing |
| InteractionForm.RemoveAt | components/interactions/InteractionForm.tsx:91-99 | Removing by index deletes exactly that position and keeps the others in order; an index out of range changes nothing |
| InteractionForm.AddThenRemoveAt | components/interactions/InteractionForm.tsx:78-99 | Removing the position just added gives back the list from before the add |
| InteractionForm.RemoveAtKeepsTrimmed | components/interactions/InteractionForm.tsx:91-99 | Removal keeps a trimmed, non-blank list trimmed and non-blank |
| InteractionForm.SubmitInteractionForm | components/interactions/InteractionForm.tsx:37-68 | An edit sends the patch without a representative and with an empty issue as undefined; a new entry without a representative shows "Representative is required." and sends nothing |
| InteractionForm.LogThenLoad | components/interactions/InteractionForm.tsx:58-67 | A logged interaction loaded back into the form shows exactly the submitted form |
| InteractionForm.EditKeepsRepresentativeAndLink | components/interactions/InteractionForm.tsx:43-57 | An edit never changes the representative, and an emptied issue selection keeps the stored issue link |
| InteractionForm.EditThenLoad | components/interactions/InteractionForm.tsx:43-57 | An edit that leaves the representative alone, and selects an issue or had none, reloads as saved |
| ListViews.Chosen | components/issues/IssueList.tsx:132-136 | "all" is no filter and any other choice is that value |
| ListViews.FilterSubsequence | components/issues/IssueList.tsx:132-136 | Client-side filtering keeps an order-preserving subsequence of the fetched list |
| ListViews.FilteredIssues | components/issues/IssueList.tsx:132-136 | The page keeps exactly the fetched issues matching the selected status and priority, in order; "all"/"all" keeps the whole list |
| ListViews.FilteredIssuesMatchServer | components/issues/IssueList.tsx:130-136 | Filtering the unfiltered fetch in the browser shows what the server's status and priority filters return |
| ListViews.FilteredRepresentatives | components/representatives/RepresentativeList.tsx:82-84 | The page keeps exactly the fetched representatives at the selected level, in order; "all" keeps the whole list |
| ListViews.FilteredRepresentativesMatchServer | components/representatives/RepresentativeList.tsx:70-84 | Filtering the unfiltered fetch in the browser shows what the server's level filter returns |
| ListViews.DateWindow | components/interactions/InteractionList.tsx:176-202 | Week, month and year end now and start 7, 30 and 365 days of 86,400,000 ms earlier, so start is at most end; "all" is no window |
| ListViews.PeriodListing | components/interactions/InteractionList.tsx:151-153 | The page lists exactly the caller's interactions dated within the chosen days before now, ends included, newest first |
| ListViews.PeriodsNest | components/interactions/InteractionList.tsx:176-202 | A longer period lists everything a shorter one does |

## Left out

- Identity verification by the identity provider is not modelled. An identity is an optional token.
- Async execution, reactivity, and concurrent writes are not modelled. This covers racing user creation and last-write-wins patches. Each handler is one atomic step.
- The textual `.toString().includes(...)` index check in `listMyTasks` and `listMyFollowups` is modelled as applying every supplied filter as a residual predicate. The result is the same set and order either way, and `Tasks.ListMyTasksRefilter` shows that re-applying the filter changes nothing.
- The `messages` table is not modelled: no handler in the core reads or writes it.
- `RepresentativeForm`, pages, layout and rendering are not modelled: they hold no logic beyond copying state.
- Numbers are unbounded integers. Floating-point timestamps, `NaN`, and dates outside the ISO range are not modelled.
- Date parsing and formatting are reduced to `Text.DayStart`, which rounds down to midnight UTC. Time zones and `toLocaleDateString` are not modelled.
- The "Failed to create or get user" branch of `getOrCreateUser` is not modelled. It is unreachable, because a row just inserted is always found.
- `Users.UpdateProfile`: a patch on a missing id is modelled as an error with no write. The store's own error text is not part of the model.
- `IssueForm.SubmitIssueForm`: a cleared target date is sent as undefined and keeps the stored date. The server offers no way to clear it, so the corrected submit keeps this behaviour.
- `InteractionForm.SubmitInteractionForm`: an emptied issue selection on edit keeps the stored link, because the server offers no way to clear it. This is stated by `InteractionForm.EditKeepsRepresentativeAndLink` and is not corrected.
- `IssueForm.LoadIssue`: a target date of exactly the epoch is falsy and shows as none, as in the form.

## Findings

| source | as written | input that shows it | evidently intended | confidence | as-written member | corrected member |
|---|---|---|---|---|---|---|
| convex/tasks.ts:47-50 | Filtering tasks by `issueId` alone scans `by_issue`, which is not bound to the caller, and no owner check follows | Alice (user 0) lists with only `issueId` = 0 while Bob owns a task on issue 0 | List only the caller's tasks | high (not executed) | Tasks.ForeignTaskListed | Tasks.ListMyTasksOwnedExact |
| convex/followups.ts:42-47 | Filtering follow-ups by `interactionId` alone scans `by_interaction`, which is not bound to the caller, and no owner check follows | Alice lists with only `interactionId` = 0 while Bob owns a follow-up of interaction 0 | List only the caller's follow-ups | high (not executed) | Followups.ForeignFollowupListed | Followups.ListMyFollowupsOwnedExact |
| components/issues/IssueForm.tsx:149-154 | On edit, an emptied key-point or success-criterion list is sent as undefined, so the patch keeps the stored list | Edit an issue whose key points are `["call"]` and success criteria `["vote"]`, remove both, and save | Saving an emptied list stores it empty | medium (not executed) | IssueForm.EmptiedListsPersist | IssueForm.EditThenLoadCorrected |
