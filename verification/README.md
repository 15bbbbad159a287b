# Verified model of the project tracker's back end

This project models the parts of the NestJS back end that hold real protocols, caches, printers and calendar arithmetic,
and proves what they keep. `dafny verify dfyconfig.toml` checks everything.

The database is a set of maps. A single-row write, an `updateMany` and a `$transaction` are one atomic step each; a throw
inside a transaction undoes it; reads before it are earlier steps whose result may be stale. Where calls interleave, the
module has a machine (`State`, `Event`, `Step`, `Run`): a map of calls in flight remembers what each call has read, and the
results hold after any sequence of events. Beside it a class has the service's methods, each proved to do what the machine
does when nothing comes in between. Tokens, ids and random suffixes are fresh values; the clock, the database's choices and
failures are parameters.

| file | what it models |
|---|---|
| `UploadProtocol`, `UploadSteps`, `UploadSafety`, `UploadOwners`, `UploadFiles`, `UploadWitnesses`, `UploadSchedules`, `UploadOutcomes`, `UploadService`, `UploadClient` | chunked uploads: the interleaved machine, its steps column by column, the safety of its rows, whose calls may touch them, the safety of its files, two unwelcome runs, each call as a schedule of the machine, what each call leaves column by column, the service class, and what a client gets from it |
| `RefreshTokens`, `AuthService` | logins, refresh-token rotation and revocation, and which tokens rest on an old password |
| `InviteLinks`, `Workspaces`, `WorkspaceRaces` | capped invite links, workspace membership and ownership, call by call and with calls that overlap |
| `Sprints`, `IssueScope`, `IssueHistory`, `IssueKeys` | sprint status, where issues may point, the activity rows of updates, issue keys |
| `CacheTags`, `ThrottleOverrides` | the tag-indexed cache and the throttle-override cache against their sources |
| `Csv`, `IssuesExport` | the CSV printer and exports against a reader of section 2 of RFC 4180 |
| `CivilCalendar`, `TimezoneIso`, `RecurringRules`, `RecurringTicks` | the calendar of section 15.9.1 of ECMA-262 edition 5.1, ISO printing against the grammar of section 5.6 of RFC 3339, recurring-rule dates and ticks |
| `Sanitize`, `CursorPaging`, `Slugs`, `SlugReference`, `Decimals` | log redaction, cursor pages, slugs and project keys with a one-pass reference for both, numerals |
| `Prelude`, `Sequences` | `Option` and `Result`; the elements of a list and whether it repeats one |

What came out different from what the code's comments or a reader would expect, each with the exact condition proved:

- A COMPLETED upload session can be overwritten by an abort, an expiry, a sweep or a late failure that read it earlier
  (exactly when: `UploadSafety.CompletedIsLeftIff`; a run in which it happens: `UploadWitnesses.CompletedIsAborted`). A
  second `complete` that finds the first one at work gets a conflict, not the not-found its comment mentions; the code is
  followed.
- The catch block that deletes the assembled file also runs when the transaction was committed and only its acknowledgement
  was lost. The row then stays without its file, and a later `complete` answers with it (exactly when:
  `UploadFiles.FileStoredIff`; a run: `UploadWitnesses.AnswersWithoutFile`).
- An export whose last line is a single empty cell reads back one line short (`Csv.RoundTrip`), and the formula prefix maps
  a formula and the same formula with an apostrophe to one text (`Csv.GuardMerges`).
- A printed timestamp gives the instant back exactly in zones of whole minutes and only there, and reads back at all only
  for local years of four digits and offsets that round to less than a day (`TimezoneIso.ExactInWholeMinutes`). Two
  instants can print alike only on opposite sides of the year one (`TimezoneIso.PrintsApart`).
- The comment on `computeNextRun` says "at or after now"; the code is strictly later (`RecurringRules.NextRunIsLater`). A
  rule both of whose advance writes fail fires again at the next tick (`RecurringTicks.StuckRuleFiresTwice`, exactly when:
  `RecurringTicks.StillDue`).
- The list of a cache tag is not renewed for a key it already names and is shortened by a key with a smaller TTL, so
  invalidating the tag can miss a live value (`CacheTags.ListExpiresFirst`, `CacheTags.ListIsCutShort`). The cache is
  invisible exactly as long as every list outlives the values it lists (`CacheTags.CoveredIff`), and each store keeps that
  exactly under one condition (`CacheTags.StoreKeepsCoverIff`). A faulty backend does more than skip the cache: a value
  that is written while one of its lists is not breaks the same condition, and so does a list that goes while one of its
  members could not be deleted (`CacheTags.ChangeKeepsCoverIff`).
- A login that checked the password before it was changed still gets a token afterwards, and a reset, unlike a change,
  revokes no token at all (`RefreshTokens.OldPasswordLogsIn`, exactly which tokens: `RefreshTokens.RestsOnOldPasswordIff`).
- The roles of a workspace are checked before they are written. A removal or a demotion that is overtaken by a transfer
  takes the new owner out, and nobody is OWNER (`WorkspaceRaces.NewOwnerIsRemoved`, exactly when:
  `WorkspaceRaces.StaysSafeIff`).
- Transferring ownership is said never to leave two owners; it does when a third member had been given the role
  (`Workspaces.TransferLeavesTwoOwners`, exactly when: `Workspaces.OneOwnerAfterTransfer`).
- Issue keys are unique in the whole database but project keys only in a workspace, so a project can be unable to create
  issues, for as long as the other project's issue exists (`IssueKeys.StuckIff`, `IssueKeys.StaysStuck`,
  `IssueKeys.TwinProjectsGetStuck`).
- The activity rows of an update tell the value it had read, not the one it replaces, when updates overlap
  (`IssueHistory.OverlapLogsStaleValue`, exactly when: `IssueHistory.CommitIsTrueIff`); a bulk update leaves none.
- The bulk update accepts as assignee only members of every workspace concerned (`IssueScope.BulkCheckIff`); the update of
  a single issue accepts anyone who has an account (`IssueScope.UpdateCheckIff`, `IssueScope.CheckedApplies`).
- The numbered project-key candidates are not all different for a base of ten characters that ends in 2 to 9
  (`Slugs.CandidateKeysDifferIff`); a one-word name gives five letters where the comment says four
  (`Slugs.SingleWordTakesFive`).
- A throttle override that expires in the very millisecond of the cache load is left out, while the table would still give
  it (`ThrottleOverrides.CacheAgreesIff`).
- A client whose cursor row was deleted is told the list has ended (`CursorPaging.CursorRowGoneIff`).

## Model

| member | source | states |
|---|---|---|
| UploadSafety.AtMostOneAttachment | src/modules/attachments-large/attachments-large.service.ts:169-236 | after any interleaving with failures, two attachment rows of one session are the same row, which the session names, with the announced size and within the limit |
| UploadSafety.ClaimIsMutex | src/modules/attachments-large/attachments-large.service.ts:174-182 | at most one completer of a session is between its claim and its commit; while it is, the status is not PENDING and the session has no attachment |
| UploadSafety.NeverPendingAgain | src/modules/attachments-large/attachments-large.service.ts:414-442 | once an attachment exists, in every continuation the session is never PENDING and keeps naming that attachment |
| UploadSafety.AnswersAgree | src/modules/attachments-large/attachments-large.service.ts:183-208 | any two `complete` calls of a session that return an attachment return the same one |
| UploadSafety.CompletedIsLeftIff | src/modules/attachments-large/attachments-large.service.ts:263-360 | a step takes a session out of COMPLETED exactly when it is an unguarded status write of a call that started earlier |
| UploadSafety.StepKeepsInv | src/modules/attachments-large/attachments-large.service.ts:103-471 | every awaited step of every call, failing before or after its effect or not at all, keeps the safety invariant |
| UploadSafety.RunKeepsInv | src/modules/attachments-large/attachments-large.service.ts:103-471 | so does every run |
| UploadSafety.AttachmentsStay | src/modules/attachments-large/attachments-large.service.ts:414-442 | no run removes or changes an attachment row of the ledger |
| UploadOwners.CompletersOwn | src/modules/attachments-large/attachments-large.service.ts:174-182 | in every run a call between its claim and its commit is the session owner's |
| UploadOwners.ClaimIsWonIff | src/modules/attachments-large/attachments-large.service.ts:174-196 | a claim is won exactly by the owner of a PENDING session that expires later than now, and makes it COMPLETING; a lost one changes no table |
| UploadOwners.StrangersChangeNothing | src/modules/attachments-large/attachments-large.service.ts:329-360 | no chunk, status, abort or complete call of anybody else changes a table, whatever happens between its steps; it ends rejected |
| UploadFiles.FileStoredIff | src/modules/attachments-large/attachments-large.service.ts:400-452 | in any run, the file of an attachment nobody removed is in storage exactly if its commit was acknowledged or the deletion that the lost one started has not run; what is stored has the announced size |
| UploadFiles.SettledFiles | src/modules/attachments-large/attachments-large.service.ts:443-452 | once the started deletions have run, exactly the acknowledged commits have a file |
| UploadFiles.FilesAreOwned | src/modules/attachments-large/attachments-large.service.ts:400-447 | no two attachments share a file, and no file is deleted while its call may still commit it |
| UploadFiles.AcknowledgedIff | src/modules/attachments-large/attachments-large.service.ts:414-447 | the row appears exactly if the transaction took effect, and its file is marked for deletion exactly if the call did not learn that |
| UploadFiles.RunKeepsFiles | src/modules/attachments-large/attachments-large.service.ts:103-471 | every run keeps files, rows and started deletions in agreement |
| UploadWitnesses.AnswersWithoutFile | src/modules/attachments-large/attachments-large.service.ts:443-447 | a run from the empty tables at whose end a committed attachment has no file and another `complete` answers with it |
| UploadWitnesses.CompletedIsAborted | src/modules/attachments-large/attachments-large.service.ts:263-288 | a run from the empty tables that ends with a session ABORTED that names its attachment, because the abort read it while PENDING |
| UploadProtocol.RunSplit | src/modules/attachments-large/attachments-large.service.ts:103-471 | a run can be cut at any point |
| UploadSteps.InitIs | src/modules/attachments-large/attachments-large.service.ts:36-101 | a session is created for at most 30 MiB in enough chunks of 512 KiB, PENDING, without chunks, for an hour |
| UploadSteps.RequestsBegin | src/modules/attachments-large/attachments-large.service.ts:329-360 | what the row check makes of a chunk and of a status request, in the order of the checks, with an expired row marked ABORTED next |
| UploadSteps.ClosersBegin | src/modules/attachments-large/attachments-large.service.ts:263-305 | an abort begins with the caller's row and goes on unless it is COMPLETED or ABORTED; a sweep picks at most 100 expired rows that are PENDING or FAILED |
| UploadSteps.ClaimThrows | src/modules/attachments-large/attachments-large.service.ts:174-182 | a claim whose acknowledgement is lost leaves COMPLETING behind and its call ends |
| UploadSteps.StatusWrites | src/modules/attachments-large/attachments-large.service.ts:210-236 | the four single-row status writes overwrite whatever status there is, under each fault |
| UploadSteps.SweepWrites | src/modules/attachments-large/attachments-large.service.ts:318-322 | the sweep's one update changes exactly the rows picked |
| UploadSteps.ChunkWrites | src/modules/attachments-large/attachments-large.service.ts:118-145 | a chunk is stored before the row counts it, and counted unless the row read at the beginning lists it |
| UploadSteps.CompleterReads | src/modules/attachments-large/attachments-large.service.ts:370-399 | the download loop, step by step, and the comparison of sizes |
| UploadSteps.CompleterForgets | src/modules/attachments-large/attachments-large.service.ts:376-394 | an absent chunk is taken off the list as it was read |
| UploadSteps.CompleterWrites | src/modules/attachments-large/attachments-large.service.ts:400-447 | the file is stored first; the transaction makes the row and finishes the session together; any throw of it starts the deletion of the file |
| UploadSteps.AnswersAre | src/modules/attachments-large/attachments-large.service.ts:183-208 | how a call without the claim answers from the row as it is by then |
| UploadSchedules.LeastMissing | src/modules/attachments-large/attachments-large.service.ts:373-395 | the index the download loop stops at: all before it are stored, it is not |
| UploadSchedules.Collected | src/modules/attachments-large/attachments-large.service.ts:372-375 | the buffers are the stored chunks in index order |
| UploadSchedules.CompleteMissingRun | src/modules/attachments-large/attachments-large.service.ts:373-394 | a `complete` with a chunk missing, run alone, goes back to PENDING, names the least missing index and stores nothing |
| UploadSchedules.CompleteMismatchRun | src/modules/attachments-large/attachments-large.service.ts:396-399 | a `complete` whose chunks add up to another size, run alone, ends FAILED without an attachment |
| UploadSchedules.CompleteCommitRun | src/modules/attachments-large/attachments-large.service.ts:396-452 | a `complete` with all chunks, run alone, ends COMPLETED with the concatenation attached and its chunks removed |
| UploadSchedules.LostRun | src/modules/attachments-large/attachments-large.service.ts:183-208 | a `complete` that gets no claim changes nothing and answers with the finished attachment, a conflict or not-found |
| UploadSchedules.ReceiptRun | src/modules/attachments-large/attachments-large.service.ts:103-145 | a chunk request run alone stores the bytes and counts the index once, or is refused, expiring the session on the way |
| UploadSchedules.AbortRun | src/modules/attachments-large/attachments-large.service.ts:263-288 | an abort run alone marks the session and removes its chunks, unless it is finished already |
| UploadSchedules.SweepRun | src/modules/attachments-large/attachments-large.service.ts:295-325 | a sweep run alone marks the picked sessions and removes their chunks |
| UploadSchedules.SweptIs | src/modules/attachments-large/attachments-large.service.ts:307-322 | a sweep changes the status of exactly the picked sessions and removes exactly their chunk objects |
| UploadOutcomes.ReceiptIs | src/modules/attachments-large/attachments-large.service.ts:103-145 | a chunk is accepted exactly from the owner, by the expiry, while PENDING or COMPLETING, for an announced index and at most 512 KiB; what it stores and counts; each refusal, and that an expired session becomes ABORTED |
| UploadOutcomes.CompletionIs | src/modules/attachments-large/attachments-large.service.ts:370-471 | a completion that won its claim names the first absent chunk and drops it from the row, or ends FAILED, or ends COMPLETED with one attachment, a file of the announced size and no chunk left |
| UploadOutcomes.CompletionOfAll | src/modules/attachments-large/attachments-large.service.ts:396-405 | with every chunk there it succeeds exactly if they add up to the announced size, and stores their concatenation |
| UploadOutcomes.PieceInWhole | src/modules/attachments-large/attachments-large.service.ts:396-396 | in a concatenation each piece lies right after the ones before it |
| UploadOutcomes.AbortIs | src/modules/attachments-large/attachments-large.service.ts:263-288 | an abort closes the caller's session unless it is COMPLETED or ABORTED, and removes exactly its chunks |
| UploadService.Service.Init | src/modules/attachments-large/attachments-large.service.ts:52-101 | accepts exactly allowed types and sizes on an accessible issue within the quota, adds one PENDING session without chunks, and says which check failed otherwise |
| UploadService.Service.GetActiveSession | src/modules/attachments-large/attachments-large.service.ts:329-360 | gives the row exactly if it is the caller's, unexpired, and PENDING or COMPLETING; says of each error when it is given; marks exactly an expired row ABORTED |
| UploadService.Service.ReceiveChunk | src/modules/attachments-large/attachments-large.service.ts:103-145 | accepts exactly what an open session of the caller's allows and then stores the bytes under the index; keeps rows and storage in agreement; the steps are the machine's |
| UploadService.Service.AssembleAndPersist | src/modules/attachments-large/attachments-large.service.ts:370-471 | the download loop collects the chunks in order; the tables end as the specification function says in each of the three outcomes |
| UploadService.Service.Complete | src/modules/attachments-large/attachments-large.service.ts:169-236 | a session is completed, and any table changed, by its owner only; the claim is won exactly if the row is the caller's, PENDING and expires later than now; then the attachment, row, file and chunks are as the announced size says, and an error attaches nothing; the steps are the machine's |
| UploadService.Service.AnswerLostClaim | src/modules/attachments-large/attachments-large.service.ts:183-208 | answers an attachment exactly for a COMPLETED session that still has one, and then it is the session's only one and its file is stored in full; a conflict exactly while COMPLETING |
| UploadService.LostAnswerIs | src/modules/attachments-large/attachments-large.service.ts:183-208 | in any run a lost claim is answered with the session's only attachment exactly if it is COMPLETED and not removed, with a conflict exactly if COMPLETING; an acknowledged one has its file in full |
| UploadService.Service.Abort | src/modules/attachments-large/attachments-large.service.ts:263-288 | succeeds exactly for the caller's session and leaves it ABORTED unless it is COMPLETED; the steps are the machine's |
| UploadService.Service.SweepExpiredSessions | src/modules/attachments-large/attachments-large.service.ts:295-325 | marks exactly the picked rows ABORTED and removes exactly their chunks; the steps are the machine's |
| UploadClient.Upload | src/modules/attachments-large/attachments-large.service.ts:52-236 | sending the pieces of a file in any order with any repeats and completing, each request at its own time, stores exactly the file if and only if every piece is handled by the session's expiry and the completion before it; otherwise the answer is not-found and nothing is attached |
| UploadClient.Resume | src/modules/attachments-large/attachments-large.service.ts:214-226 | completing and sending the piece named as missing ends with the file stored, after one round more than there were pieces missing, if and only if these requests are in time; otherwise with not-found and nothing attached |
| UploadClient.CompletionOfWhole | src/modules/attachments-large/attachments-large.service.ts:370-399 | completing succeeds exactly when no index is absent, and otherwise names the least absent one and stores nothing |
| RefreshTokens.ExchangedAtMostOnce | src/modules/auth/auth.service.ts:390-399 | in any interleaving no token is exchanged twice and an exchanged token is never live again |
| RefreshTokens.OneLiveTokenPerLogin | src/modules/auth/auth.service.ts:362-400 | at most one live token descends from one login |
| RefreshTokens.RotationReplaces | src/modules/auth/auth.service.ts:390-399 | a rotation commits exactly when the parent row still exists, replaces it by one token of the same login, and keeps the user's number of live tokens |
| RefreshTokens.RotatedCount | src/modules/auth/auth.service.ts:390-399 | a rotation keeps the number of live tokens of every user |
| RefreshTokens.ReadsAre | src/modules/auth/auth.service.ts:362-388 | what a refresh and the revocation of one session decide on when they read the row |
| RefreshTokens.WritesAre | src/modules/auth/auth.service.ts:390-400 | what they write under each fault: both rows of a rotation or none; a token is handed out only by an acknowledged commit |
| RefreshTokens.RevokedAre | src/modules/auth/auth.service.ts:638-660 | deleting a user's other tokens keeps the current one and everybody else's; deleting all keeps everybody else's |
| RefreshTokens.RevocationIsComplete | src/modules/auth/auth.service.ts:502-536 | after a revocation of all tokens, whatever was in flight, every live token of the user descends from a login whose token was created later |
| RefreshTokens.RestsOnOldPasswordIff | src/modules/auth/auth.service.ts:147-166 | once the password was last set, in any interleaving a live token rests on an old one exactly if its login came before, or its login call had checked the password before; that is, if the password was set more often than the login knew; after a change, as opposed to a reset, only the latter are left |
| RefreshTokens.EraCounts | src/modules/auth/auth.service.ts:433-528 | the era of a user is the number of times the password was set in the run |
| RefreshTokens.LoginSteps | src/modules/auth/auth.service.ts:147-166 | a login token carries the era of its check, however late it is created |
| RefreshTokens.CheckedLoginOutlivesChange | src/modules/auth/auth.service.ts:502-528 | every login call that is past its check when the password changes can still create a live token, which rests on the old password |
| RefreshTokens.OldPasswordLogsIn | src/modules/auth/auth.service.ts:433-464 | a run from the empty tables in which one does, and one in which a token outlives a reset |
| RefreshTokens.LoginAlone | src/modules/auth/auth.service.ts:147-166 | the check and the creation of the token with nothing in between do what the service method does |
| RefreshTokens.RefreshAlone | src/modules/auth/auth.service.ts:362-400 | the two steps of a refresh with nothing in between do what the service method does |
| RefreshTokens.RotateKeepsInv | src/modules/auth/auth.service.ts:390-399 | the transaction keeps the token invariant for any stale read and any failure |
| RefreshTokens.RunKeepsInv | src/modules/auth/auth.service.ts:147-694 | every run keeps it |
| AuthService.Service.Login | src/modules/auth/auth.service.ts:147-166 | a token is created exactly for a verified, active account with the right password, and starts a login of its own; the tables stay those of a run of the token machine, with one live token per login |
| AuthService.Service.Refresh | src/modules/auth/auth.service.ts:362-400 | replaces a live token by one of the same login, drops an expired one, refuses everything else; a token once exchanged is always refused, and afterwards the presented one is dead |
| AuthService.Service.ChangePassword | src/modules/auth/auth.service.ts:502-536 | succeeds exactly with the right current password or none set; then the password is set, all the user's tokens are revoked and others keep theirs; otherwise nothing changes |
| AuthService.Service.RevokeAllMySessions | src/modules/auth/auth.service.ts:651-660 | exactly the user's tokens go, and are counted |
| AuthService.OnlyLaterLogins | src/modules/auth/auth.service.ts:502-536 | however the service is used after it revoked a user's tokens, each live token of that user comes from a login made since |
| AuthService.OldPasswordIff | src/modules/auth/auth.service.ts:433-528 | while calls do not overlap, no accepted token rests on an old password after a change; after a reset exactly those do whose login came before it |
| AuthService.Service.ResetPassword | src/modules/auth/auth.service.ts:433-465 | sets the password exactly for a code that has not expired, uses up the user's codes, and revokes no token |
| AuthService.Service.Logout | src/modules/auth/auth.service.ts:588-593 | that token is dead and every other one as it was; the run continues by the logout alone, so no token counts as exchanged by it |
| AuthService.Service.RevokeMySession | src/modules/auth/auth.service.ts:622-636 | removes a session exactly if it is the caller's own, and says whether it was the current one |
| AuthService.Service.RevokeOtherSessions | src/modules/auth/auth.service.ts:638-649 | of the user's tokens exactly the current one stays, everybody else's stay, and those that go are counted |
| Csv.RoundTrip | src/core/utils/csv.util.ts:36-41 | any grid reads back as itself exactly when its last line is not one empty cell |
| Csv.ReadField | src/core/utils/csv.util.ts:39-40 | one printed field, whatever it contains, leaves the reader holding its text |
| Csv.ReadLine | src/core/utils/csv.util.ts:39-40 | one printed line leaves the reader holding its fields |
| Csv.GuardIsSafe | src/core/utils/csv.util.ts:36-38 | no text cell starts with a formula trigger afterwards, and at most one apostrophe is added |
| Csv.GuardMerges | src/core/utils/csv.util.ts:36-38 | two texts become one exactly when one is a formula and the other that formula with the apostrophe |
| Csv.CellTexts | src/core/utils/csv.util.ts:16-38 | nothing prints empty, a number and JSON print as they are, and text gets an apostrophe before one of the six formula characters |
| Csv.QuotedIff | src/core/utils/csv.util.ts:39-40 | a text is put in quotes, its own doubled, exactly if it has a quote, a comma or a line break in it |
| IssuesExport.ExportReadsBack | src/modules/admin-audit/admin-audit.service.ts:153-170 | every export of two or more columns and plain headers reads back as its headers and cell texts |
| IssuesExport.CellsShow | src/modules/issues/services/issues-export.service.ts:58-70 | the eleven cells of an issue are its fields in the order of the headers: people by name, else e-mail, else nothing; points unguarded |
| IssuesExport.IssueExportReadsBack | src/modules/issues/services/issues-export.service.ts:56-77 | the issue export reads back as the eleven headers and one line per issue, with that field of the issue under each header |
| IssuesExport.ExportIsInjective | src/modules/issues/services/issues-export.service.ts:56-77 | issue lists with the same export have the same cell texts |
| CivilCalendar.YearStep | src/modules/recurring-issues/recurring-issues.service.ts:290-304 | the closed formula for the first day of a year advances by the length of the year |
| CivilCalendar.FromDay | src/core/utils/timezone.util.ts:46-52 | the date of a day number is valid and has that day number |
| CivilCalendar.FromToDay | src/core/utils/timezone.util.ts:46-52 | every valid date is the date of its day number |
| CivilCalendar.MonthLengths | src/modules/recurring-issues/recurring-issues.service.ts:299-301 | the lengths of the twelve months, and which years are leap years |
| CivilCalendar.Epoch | src/core/utils/timezone.util.ts:46-52 | day 0 is January 1, 1970 |
| TimezoneIso.ReadsBack | src/core/utils/timezone.util.ts:31-68 | for every instant and offset: the printed string reads back as the instant moved by what the offset has beyond whole minutes if the local year has four digits and the offset rounds to less than a day, and as nothing otherwise |
| TimezoneIso.ExactInWholeMinutes | src/core/utils/timezone.util.ts:58-67 | what reads back is within 30 seconds, and is the instant itself if and only if the offset is in whole minutes |
| TimezoneIso.ReadPrintedZone | src/core/utils/timezone.util.ts:61-67 | sign, hours and minutes recompose to the rounded offset exactly if that is less than a day |
| TimezoneIso.ShowsTheWallClock | src/core/utils/timezone.util.ts:46-52 | the string shows the local fields of the instant exactly if the local year has four digits, and then has 29 characters unless the offset is of a hundred hours |
| TimezoneIso.PrintsApart | src/core/utils/timezone.util.ts:31-68 | two instants print alike in a zone exactly if their wall clocks differ only in the year, the years are mirrored about the first, and the stamp is no date |
| TimezoneIso.FieldsRoundTrip | src/core/utils/timezone.util.ts:46-52 | the fields of an instant give the instant back |
| TimezoneIso.StampHour | src/core/utils/timezone.util.ts:49-49 | a runtime that calls midnight 24 prints the same hour |
| RecurringRules.StepForward | src/modules/recurring-issues/recurring-issues.service.ts:290-304 | one step is exactly 1 day, 7 days, or the length of the current month, in milliseconds |
| RecurringRules.ComputeNextRun | src/modules/recurring-issues/recurring-issues.service.ts:272-288 | the setters leave the configured hour of the same day exactly if the rule is not firing and that is still ahead, and otherwise that hour 1 day, 7 days or one calendar month later |
| RecurringRules.NextRunDay | src/modules/recurring-issues/recurring-issues.service.ts:272-304 | the day of the next run: the same one exactly if the rule is not firing and its hour is ahead; else the next day, seven days on, or the date a month later |
| RecurringRules.NextRunIsLater | src/modules/recurring-issues/recurring-issues.service.ts:272-288 | the next run is strictly later, on the configured hour, and at most one step past the day |
| RecurringRules.DailyIsTheNextSlot | src/modules/recurring-issues/recurring-issues.service.ts:280-285 | a new daily rule runs at the first later instant that shows its hour |
| RecurringRules.MonthForward | src/modules/recurring-issues/recurring-issues.service.ts:299-301 | moving the month by one is adding the length of the current month |
| RecurringRules.DateForward | src/modules/recurring-issues/recurring-issues.service.ts:293-298 | moving the date is adding days, across any month end |
| RecurringRules.MonthlyStepDate | src/modules/recurring-issues/recurring-issues.service.ts:299-301 | a monthly step keeps the date if the next month has it and otherwise spills at most three days into the one after |
| RecurringTicks.Scheduler.RunDueRules | src/modules/recurring-issues/recurring-issues.service.ts:146-199 | each rule of the batch gets exactly its own turn; the batch is due rules only, at most 200, and all while there are fewer; the issues written and the count are exact, other rules do not change |
| RecurringTicks.Scheduler.TakeTurn | src/modules/recurring-issues/recurring-issues.service.ts:156-193 | which of the two writes takes effect decides the new times: the first records the run, the last one sets the next run counted from its own clock; a rule stays only if neither does |
| RecurringTicks.OneIssuePerRule | src/modules/recurring-issues/recurring-issues.service.ts:155-157 | a tick writes at most one issue for a rule, and writes it exactly if the spawn took effect, acknowledged or not |
| RecurringTicks.BatchIs | src/modules/recurring-issues/recurring-issues.service.ts:146-152 | a tick takes enabled rules that are due, at most 200, and all of them while there are fewer |
| RecurringTicks.CleanCountIs | src/modules/recurring-issues/recurring-issues.service.ts:155-172 | the count returned is that of the turns whose spawn did not throw and whose first write was acknowledged |
| RecurringTicks.AfterIsLater | src/modules/recurring-issues/recurring-issues.service.ts:158-193 | a turn moves the rule past now exactly when one of its writes takes effect, records the run exactly when the first one does, and changes nothing else |
| RecurringTicks.StillDue | src/modules/recurring-issues/recurring-issues.service.ts:164-193 | a due rule is due after the tick exactly when the batch missed it or neither of its writes took effect |
| RecurringTicks.StuckRuleFiresTwice | src/modules/recurring-issues/recurring-issues.service.ts:174-193 | two ticks in a row write an issue for a rule neither of whose writes took effect in the first |
| RecurringTicks.TickDrains | src/modules/recurring-issues/recurring-issues.service.ts:149-152 | a tick whose advances succeed takes exactly its batch off the due set: up to 200 rules |
| RecurringTicks.TicksDrain | src/modules/recurring-issues/recurring-issues.service.ts:146-199 | n such ticks take 200n rules off a backlog, and empty one of at most 200n |
| CacheTags.TimelyWrapIsTheLoader | src/core/cache/cache-tags.service.ts:29-105 | over any stretch of time, with values and lists expiring, backend faults and late stores: while stores are timely and each source change invalidates a tag of what it changes, a read-through answers what the loader would |
| CacheTags.CoveredIff | src/core/cache/cache-tags.service.ts:57-105 | a store serves the source's values now and after any one disciplined change, whenever it comes, exactly if every served value is the source's and the lists of all its tags outlive it |
| CacheTags.StoreKeepsCoverIff | src/core/cache/cache-tags.service.ts:79-105 | storing keeps this exactly if the value is still the source's, each list that names the key already lasts as long as the value, each list rewritten cuts no other value short, and no list is missed |
| CacheTags.ChangeKeepsCoverIff | src/core/cache/cache-tags.service.ts:57-77 | a change keeps this exactly if what it leaves is still the source's and no list of that goes, whatever the backend fails to read or delete |
| CacheTags.SameTtlTimelyIff | src/core/cache/cache-tags.service.ts:94-97 | while all values share one TTL, that is: each list that names the key already lasts until now plus the TTL |
| CacheTags.RunIsCovered | src/core/cache/cache-tags.service.ts:29-105 | every run of timely stores and disciplined changes keeps every list longer than its values |
| CacheTags.MissedChange | src/core/cache/cache-tags.service.ts:57-105 | a list that ends before its value misses a change, and the value is then served stale |
| CacheTags.WrapIsTheLoader | src/core/cache/cache-tags.service.ts:29-51 | while nothing expires, whatever the TTLs, if each source change invalidates a tag of what it changes and what is stored gets listed, a read-through always answers what the loader would |
| CacheTags.RunIsCoherent | src/core/cache/cache-tags.service.ts:79-105 | on such runs every value is the source's and is listed under each tag of its key |
| CacheTags.SurvivesIff | src/core/cache/cache-tags.service.ts:57-77 | invalidating tags, at any time and with any failures, leaves exactly the values that none of them lists or could delete, and exactly the lists of other tags or that could not be deleted |
| CacheTags.StaleIff | src/core/cache/cache-tags.service.ts:57-77 | after a change a key reads stale exactly when its old value is served and no invalidated tag lists it and could delete it |
| CacheTags.ListExpiresFirst | src/core/cache/cache-tags.service.ts:95-97 | a value can outlive the list of its tag and survive the invalidation |
| CacheTags.ListIsCutShort | src/core/cache/cache-tags.service.ts:96-96 | another key's shorter TTL can shorten the list's life below the value's |
| CacheTags.AddTagsLists | src/core/cache/cache-tags.service.ts:91-99 | storing rewrites, with twice the TTL, exactly the lists of the tags reached that did not name the key; no value and no other list changes, expiry included |
| CacheTags.StoredLists | src/core/cache/cache-tags.service.ts:79-105 | a store sets the value with its TTL and rewrites, with twice the TTL, exactly the lists reached that are expired or do not name the key |
| CacheTags.KeyTexts | src/core/cache/cache-tags.service.ts:107-113 | the two key prefixes |
| CacheTags.KeysApart | src/core/cache/cache-tags.service.ts:107-113 | value keys and tag keys never collide and name one key or tag each |
| CacheTags.CacheTagsService.Wrap | src/core/cache/cache-tags.service.ts:29-51 | serves the stored value exactly if it is there, not expired and not null, and otherwise the loader's answer, which is then stored with its TTL; a served value is what a load of this key returned no longer ago than its TTL plus the time until it was stored; a failed read and a lost write store nothing |
| CacheTags.CacheTagsService.Set | src/core/cache/cache-tags.service.ts:79-105 | the loop over the tags stores the value with its expiry and lists it under exactly the tags reached, or a lost write stores nothing |
| CacheTags.CacheTagsService.InvalidateTag | src/core/cache/cache-tags.service.ts:57-73 | removes exactly the keys that an unexpired list of the tag names and the backend can delete, and then the list; keeps all else |
| CacheTags.CacheTagsService.InvalidateTags | src/core/cache/cache-tags.service.ts:75-77 | all tags in turn |
| ThrottleOverrides.CacheAgreesIff | src/modules/throttle-overrides/throttle-overrides.service.ts:134-158 | a loaded cache answers like the table it was loaded from, except for a row that expires now, in the millisecond of the load |
| ThrottleOverrides.ThrottleOverridesService.GetOverride | src/modules/throttle-overrides/throttle-overrides.service.ts:134-140 | after any sequence of calls a returned row has the bypass, multiplier and expiry of the target's current row and has not expired; a current row is returned unless it has expired or expires in the millisecond of the load |
| ThrottleOverrides.ThrottleOverridesService.RefreshCacheIfStale | src/modules/throttle-overrides/throttle-overrides.service.ts:142-158 | for 30 seconds after a load nothing changes; then the cache holds exactly the rows that last beyond the query |
| ThrottleOverrides.ThrottleOverridesService.Create | src/modules/throttle-overrides/throttle-overrides.service.ts:48-81 | one row per target; a second one is refused without a change |
| ThrottleOverrides.ThrottleOverridesService.Update | src/modules/throttle-overrides/throttle-overrides.service.ts:83-114 | changes exactly the columns that the request names, an empty reason to none, and drops the cache |
| ThrottleOverrides.ThrottleOverridesService.Delete | src/modules/throttle-overrides/throttle-overrides.service.ts:116-129 | removes that row and drops the cache |
| InviteLinks.CountedAndCapped | src/modules/invite-links/invite-links.service.ts:98-135 | in any interleaving a link's counter is the number of memberships that came from it and never passes the cap, also for revoked links |
| InviteLinks.CommitAllOrNothing | src/modules/invite-links/invite-links.service.ts:101-134 | a commit takes a member in exactly when there is none yet, the link exists and a use is left; otherwise it leaves no trace; each answer is exact |
| InviteLinks.BeginJoinReads | src/modules/invite-links/invite-links.service.ts:137-149 | what a join reads: the link, or not found, expired or exhausted, in this order |
| InviteLinks.MeanwhileIs | src/modules/invite-links/invite-links.service.ts:35-68 | what the creation and revocation of links and changes of members do in between |
| InviteLinks.NeverOwner | src/modules/invite-links/invite-links.service.ts:35-42 | no membership from a link has the role OWNER |
| InviteLinks.RepeatJoinChangesNothing | src/modules/invite-links/invite-links.service.ts:102-115 | a join by a member changes nothing |
| InviteLinks.JoinTakesInIff | src/modules/invite-links/invite-links.service.ts:98-149 | run alone, a join takes the user in exactly when the link exists, has not expired, has a use left and the user is no member; with the link's role |
| InviteLinks.LastSlot | src/modules/invite-links/invite-links.service.ts:120-128 | of two joins past their read with one use left, the second is refused and leaves no membership |
| InviteLinks.JoinAloneIsARun | src/modules/invite-links/invite-links.service.ts:98-135 | the read and the commit back to back are the service's join |
| InviteLinks.InviteLinksService.Create | src/modules/invite-links/invite-links.service.ts:35-57 | adds the link asked for exactly for an OWNER or ADMIN of the workspace who does not ask for OWNER; changes nothing else |
| InviteLinks.InviteLinksService.Revoke | src/modules/invite-links/invite-links.service.ts:59-68 | removes a link exactly for an OWNER or ADMIN of its own workspace, and says which check fails |
| InviteLinks.InviteLinksService.FindValidLink | src/modules/invite-links/invite-links.service.ts:137-149 | gives the link exactly if it exists, has not expired and has a use left, that is, if joining through it now would take in a user who is no member |
| InviteLinks.InviteLinksService.CommitJoin | src/modules/invite-links/invite-links.service.ts:101-134 | on a link row that may be stale: writes both rows or, rolled back, none |
| InviteLinks.InviteLinksService.Join | src/modules/invite-links/invite-links.service.ts:98-135 | takes the user in exactly under these conditions, with the link's role and one use more; otherwise nothing changes; the steps are the machine's |
| Workspaces.OwnerIsMember | src/modules/workspaces/workspaces.service.ts:191-239 | after any sequence of calls the owner of a workspace is a member of it with the role OWNER |
| Workspaces.OnlyOwner | src/modules/workspaces/workspaces.service.ts:264-373 | and the only one, if no member was ever added or updated to OWNER |
| Workspaces.OnlyTransferUnseats | src/modules/workspaces/workspaces.service.ts:343-345 | an OWNER loses the role exactly by an own transfer or with the workspace |
| Workspaces.OneOwnerAfterTransfer | src/modules/workspaces/workspaces.service.ts:183-239 | a transfer makes the caller ADMIN and the other OWNER, touches nobody else, and leaves exactly one OWNER if and only if nobody but the two had the role |
| Workspaces.TransferLeavesTwoOwners | src/modules/workspaces/workspaces.service.ts:183-190 | a run in which two remain |
| WorkspaceRaces.OwnersStaySeated | src/modules/workspaces/workspaces.service.ts:170-396 | in any interleaving every workspace keeps its owner as a member with the role OWNER, as long as no transfer overtakes an update or a removal of the member it promotes |
| WorkspaceRaces.StaysSafeIff | src/modules/workspaces/workspaces.service.ts:343-396 | of all steps exactly such a transfer lets a call in flight lose the owner |
| WorkspaceRaces.SafeIff | src/modules/workspaces/workspaces.service.ts:324-396 | a state is safe exactly when no single step can lose an owner |
| WorkspaceRaces.SeatedIff | src/modules/workspaces/workspaces.service.ts:343-396 | a step loses an owner exactly if it is the write of a removal or a demotion that meets the owner's row |
| WorkspaceRaces.NewOwnerIsRemoved | src/modules/workspaces/workspaces.service.ts:375-396 | a run from the empty tables after which the owner is no member and nobody is OWNER |
| WorkspaceRaces.CallAlone | src/modules/workspaces/workspaces.service.ts:170-396 | the steps of a call with nothing in between do what the call of the service class does, and give its answer |
| WorkspaceRaces.PassesCheckIff | src/modules/workspaces/workspaces.service.ts:416-436 | a call in flight gets past its role check exactly as an OWNER, or as an ADMIN who neither deletes nor transfers |
| WorkspaceRaces.WritesAre | src/modules/workspaces/workspaces.service.ts:170-396 | a write that comes late does its one change, or throws if the row it is about is gone, even if the member has a new row by then |
| Workspaces.QuotaHolds | src/modules/workspaces/workspaces.service.ts:285-294 | adding a member never exceeds the quota |
| Workspaces.OnlyManagersManage | src/modules/workspaces/workspaces.service.ts:264-436 | members are added, changed and removed by an OWNER or ADMIN only; a MEMBER or VIEWER is refused as insufficient and a stranger as without access; exactly when each call then succeeds |
| Workspaces.OneMemberChanges | src/modules/workspaces/workspaces.service.ts:264-396 | such a call changes that one member, and a refused one nothing |
| Workspaces.OnlyOwnersOwn | src/modules/workspaces/workspaces.service.ts:170-239 | a workspace is deleted or transferred by an OWNER only, not by an ADMIN; exactly what goes and changes |
| Workspaces.WorkspacesService.Create | src/modules/workspaces/workspaces.service.ts:48-56 | the workspace and its OWNER member appear together |
| Workspaces.WorkspacesService.Delete | src/modules/workspaces/workspaces.service.ts:170-181 | removes the workspace and its members, for an OWNER only |
| Workspaces.WorkspacesService.TransferOwnership | src/modules/workspaces/workspaces.service.ts:191-239 | the three writes and the checks before them |
| Workspaces.WorkspacesService.AddMember | src/modules/workspaces/workspaces.service.ts:264-305 | adds one member or gives the first failing check |
| Workspaces.WorkspacesService.UpdateMember | src/modules/workspaces/workspaces.service.ts:324-355 | changes one role, never that of an OWNER |
| Workspaces.WorkspacesService.RemoveMember | src/modules/workspaces/workspaces.service.ts:375-396 | removes one member, never an OWNER |
| Workspaces.WorkspacesService.AssertRole | src/modules/workspaces/workspaces.service.ts:416-436 | gives the role exactly if the user is a member with one of the roles asked for, and says which fails; the owner passes exactly if OWNER is among them |
| Sprints.AtMostOneActive | src/modules/sprints/sprints.service.ts:199-218 | in any interleaving a board has at most one ACTIVE sprint |
| Sprints.OnlyForward | src/modules/sprints/sprints.service.ts:190-254 | no step takes a sprint's status back or skips one, also when it acts on a stale read |
| Sprints.NeverBack | src/modules/sprints/sprints.service.ts:190-254 | over any run COMPLETED is final and PLANNING is not entered again |
| Sprints.StartsIff | src/modules/sprints/sprints.service.ts:199-218 | a start succeeds exactly when, at its commit, the sprint is in PLANNING and the board has no active one |
| Sprints.ReadsAre | src/modules/sprints/sprints.service.ts:190-262 | what a start, a completion and a deletion decide on when they read the sprint |
| Sprints.WritesAre | src/modules/sprints/sprints.service.ts:238-272 | what a completion and the two writes of a deletion do later, also when the sprint is gone by then |
| Sprints.IssueIsPut | src/modules/sprints/sprints.service.ts:263-272 | an issue can be given any sprint that exists at the time |
| Sprints.SecondStartIsRefused | src/modules/sprints/sprints.service.ts:200-218 | of two starts past their read the second is refused |
| Sprints.CompleteKeepsIssues | src/modules/sprints/sprints.service.ts:238-245 | completing keeps every issue and its column; an issue in a column of category DONE or in none stays in the sprint, one in TODO or IN_PROGRESS leaves |
| Sprints.DeleteLeavesNoReference | src/modules/sprints/sprints.service.ts:263-272 | no issue ever refers to a sprint that is gone |
| Sprints.DeleteKeepsIssues | src/modules/sprints/sprints.service.ts:263-272 | deleting a sprint takes its issues out of it and changes nothing else about them |
| Sprints.SprintsService.Create | src/modules/sprints/sprints.service.ts:135-149 | a new sprint in PLANNING |
| Sprints.SprintsService.Start | src/modules/sprints/sprints.service.ts:190-226 | succeeds exactly for a sprint in PLANNING on a board without an active one, and changes its status only; the steps are the machine's |
| Sprints.SprintsService.Complete | src/modules/sprints/sprints.service.ts:228-254 | succeeds exactly for an ACTIVE sprint; exactly its issues in columns of category TODO or IN_PROGRESS go to the backlog |
| Sprints.SprintsService.Delete | src/modules/sprints/sprints.service.ts:256-274 | removes the sprint and clears exactly the references to it |
| IssueScope.ReferencesStayInScope | src/modules/issues/issues.service.ts:761-795 | in any interleaving every parent, epic, sprint and column of an issue exists and is of the issue's own project, and its assignee and reporter have accounts |
| IssueScope.ApplyKeepsOk | src/modules/issues/issues.service.ts:453-461 | a checked write keeps this whatever happened since the check |
| IssueScope.CheckedIsOk | src/modules/issues/issues.service.ts:107-113 | the checks of every call give its writes that sense |
| IssueScope.CheckedApplies | src/modules/issues/issues.service.ts:116-143 | with nothing in between the database accepts every checked write, except one that names an assignee or creator without an account, whom only the bulk update looks up |
| IssueScope.RefusedIff | src/modules/issues/issues.service.ts:116-143 | when the database refuses a write, whatever was read before: a reference that leads nowhere, or a single row that is gone |
| IssueScope.StepsAre | src/modules/issues/issues.service.ts:89-143 | a call checks, and then makes its writes one at a time until one is refused |
| IssueScope.MembersChange | src/modules/issues/issues.service.ts:463-484 | members of projects and workspaces come and go in between, and only accounts are members |
| IssueScope.SpawnIs | src/modules/recurring-issues/recurring-issues.service.ts:203-262 | a spawned issue has no parent, epic or sprint, and a project that is gone gets none |
| IssueScope.BulkCheckIff | src/modules/issues/services/issues-bulk.service.ts:62-123 | the bulk update's comparisons and counts accept exactly batches that exist, are all of the sprint's project if one is set, and whose every workspace has the assignee as a member if one is set |
| IssueScope.BatchErrorsAre | src/modules/issues/services/issues-bulk.service.ts:62-148 | an empty batch and one with an unknown issue are told apart, and a bulk deletion is refused for nothing else |
| IssueScope.UpdateChangesOnly | src/modules/issues/issues.service.ts:446-556 | an accepted update changes only its issue and only what it names: absent keeps, null clears, a value sets; the reporter changes only by a lead or admin and to a member of the project |
| IssueScope.UpdateCheckIff | src/modules/issues/issues.service.ts:446-526 | an update is accepted exactly if the issue exists, the epic and sprint set are of its project, a new reporter is a project member named by a lead or admin, and the dates can be read |
| IssueScope.MoveChangesOnly | src/modules/issues/issues.service.ts:654-663 | an accepted move changes only the column of its issue |
| IssueScope.BulkChangesOnly | src/modules/issues/services/issues-bulk.service.ts:125-135 | an accepted bulk update changes only the sprint, assignee and priority of the issues listed, and of those only what it names |
| IssueScope.DeleteChangesOnly | src/modules/issues/services/issues-bulk.service.ts:140-148 | a deletion removes exactly the issues listed and clears exactly the references to them |
| IssueScope.DeletedColumnOrphansIff | src/modules/boards/boards.service.ts:151-167 | deleting a column takes the column from exactly the issues moved into it since the check, and from none if there was no gap |
| IssueScope.ReorderAcceptsIff | src/modules/boards/boards.service.ts:182-198 | the size comparisons accept exactly the orderings of the board's columns |
| IssueScope.ReorderedPositions | src/modules/boards/boards.service.ts:200-207 | the columns then lie at positions 0, 1, 2, ... in the order given; other boards do not change |
| IssueScope.MaxPosition | src/modules/boards/boards.service.ts:95-98 | the highest position, or -1 for a board without columns |
| IssueHistory.LogTellsTheRow | src/modules/issues/issues.service.ts:536-564 | however updates overlap and fail, replaying the activity rows gives the issue's fields, except those set by a write that leaves no row |
| IssueHistory.StepsAre | src/modules/issues/issues.service.ts:446-564 | a read keeps the row; a commit, acknowledged or not, sets exactly the fields named and logs what was read of them; a bulk update logs nothing |
| IssueHistory.CommitIsTrueIff | src/modules/issues/issues.service.ts:488-534 | an update logs the values it replaces exactly if the fields it names are as it had read them |
| IssueHistory.OneByOneIsTrue | src/modules/issues/issues.service.ts:446-564 | updates that do not overlap all log the values they replace |
| IssueHistory.OverlapLogsStaleValue | src/modules/issues/issues.service.ts:446-564 | of two updates of a field that overlap the second logs a value that it does not replace |
| IssueScope.IssueServices.AssertIssueFkScope | src/modules/issues/issues.service.ts:761-795 | none exactly if an issue of the project with this parent, epic and sprint would be in scope; an error names the first that would not |
| IssueScope.IssueServices.Create | src/modules/issues/issues.service.ts:89-143 | adds the issue exactly if its project exists, its references are in scope and its people have accounts; otherwise nothing changes |
| IssueScope.IssueServices.Update | src/modules/issues/issues.service.ts:446-556 | makes the changes named, after the scope, reporter and date checks in this order, or none; for its activity rows see IssueHistory |
| IssueScope.IssueServices.AssertMayChangeReporter | src/modules/issues/issues.service.ts:463-484 | none exactly if the reporter stays, or a lead or admin of the project names one of its members |
| IssueScope.IssueServices.Move | src/modules/issues/issues.service.ts:629-663 | changes the column exactly if it is of the project's board, and says which check fails |
| IssueScope.IssueServices.Delete | src/modules/issues/issues.service.ts:719-721 | removes the issue and clears exactly the references to it |
| IssueScope.IssueServices.BulkUpdate | src/modules/issues/services/issues-bulk.service.ts:53-138 | changes sprint, assignee and priority of the whole batch or of none |
| IssueScope.IssueServices.BulkDelete | src/modules/issues/services/issues-bulk.service.ts:140-148 | removes the whole batch or none of it |
| IssueScope.IssueServices.DeleteSprint | src/modules/sprints/sprints.service.ts:256-274 | removes the sprint and clears exactly the references to it |
| IssueScope.IssueServices.DeleteColumn | src/modules/boards/boards.service.ts:140-169 | removes a column of the board exactly if no issue is in it, and touches no issue |
| IssueScope.IssueServices.AddColumn | src/modules/boards/boards.service.ts:92-111 | the new column comes last |
| IssueScope.IssueServices.ReorderColumns | src/modules/boards/boards.service.ts:171-207 | one update per column gives the order asked for, or nothing changes |
| IssueKeys.NeverIssuedTwice | src/modules/issues/issues.service.ts:116-121 | no key is issued twice in a project, also after deletions; two projects issue one key exactly with equal project keys and numbers |
| IssueKeys.NumbersAreConsecutive | src/modules/recurring-issues/recurring-issues.service.ts:227-232 | a project issues 1, 2, 3, ... up to its counter, in order, in any interleaving of creates, spawns and deletions |
| IssueKeys.KeysEqualIff | src/modules/projects/dto/create-project.dto.ts:30 | two issue keys are equal exactly for equal project keys and numbers, because project keys have no hyphen |
| IssueKeys.StuckIff | src/modules/issues/issues.service.ts:116-143 | a create fails exactly when a project of another workspace with the same project key has an issue with the next number, and then leaves the counter alone; otherwise the key is the project key, a hyphen and the next number |
| IssueKeys.RunKeepsKeysDiffer | src/modules/projects/projects.service.ts:76-126 | in every run the projects of one workspace that are alive have different keys |
| IssueKeys.BeginningsAre | src/modules/issues/issues.service.ts:89-105 | a create reads the project's key if it is alive; a project is created exactly with a well-formed key that no other of its workspace has |
| IssueKeys.StaysStuck | src/modules/issues/issues.service.ts:116-143 | whatever happens, until the other project's issue or that project is deleted, every create in a stuck project fails and its counter stands still |
| IssueKeys.TwinProjectsGetStuck | src/modules/issues/issues.service.ts:116-143 | a run from the empty tables makes two projects of one key in two workspaces, after which the second can create no issue until the first one's issue is gone |
| IssueKeys.OneEntryPerNumber | src/modules/issues/issues.service.ts:117-120 | later issues of a project have greater numbers |
| IssueKeys.RunKeepsInv | src/modules/issues/issues.service.ts:116-143 | every run keeps counters, ledger and live issues in agreement |
| IssueKeys.IssueNumbers.IssueTransaction | src/modules/issues/issues.service.ts:116-143 | counts up and inserts the key of the next number exactly if no issue has that key, or rolls the counter back |
| IssueKeys.IssueNumbers.CreateProject | src/modules/projects/projects.service.ts:76-94 | a project starts at number zero |
| IssueKeys.IssueNumbers.DeleteProject | src/modules/projects/projects.service.ts:204-222 | takes exactly its issues along and never frees a number |
| IssueKeys.IssueNumbers.DeleteIssue | src/modules/issues/issues.service.ts:719-721 | frees no number |
| Decimals.ValueOfNumeral | src/core/utils/slug.util.ts:38-38 | a numeral reads back as its number |
| Slugs.SlugIsWellFormed | src/core/utils/slug.util.ts:10-21 | a slug is lower-case letters, digits and single inner hyphens, for any name |
| Slugs.SlugFixedIff | src/core/utils/slug.util.ts:10-21 | a text is its own slug exactly if it is well formed; generating is idempotent |
| SlugReference.SlugInOnePass | src/core/utils/slug.util.ts:10-21 | the slug is the letters and digits of the small unaccented name, in order, with one hyphen where separators stand between two of them: the chain of replacements refines one pass |
| Slugs.CreateWithUniqueSlug | src/modules/workspaces/workspaces.service.ts:80-95 | the loop returns the first free of eleven candidates, and fails exactly if none is |
| Slugs.FirstFreeIs | src/modules/workspaces/workspaces.service.ts:84-92 | what the first free candidate is |
| Slugs.Pigeonhole | src/modules/workspaces/workspaces.service.ts:84-92 | fewer names taken than different candidates leaves one free |
| Slugs.SlugCandidatesDiffer | src/core/utils/slug.util.ts:35-40 | the first ten candidates are pairwise different |
| Slugs.NumberedCandidates | src/core/utils/slug.util.ts:35-40 | the predictable candidates are the base, base-2, ..., base-10 |
| SlugReference.SlugCandidatesAre | src/core/utils/slug.util.ts:33-40 | the eleven slugs tried: the base or "workspace", its forms -2 to -10, and one with the random suffix |
| Slugs.PredictableSlug | src/core/utils/slug.util.ts:35-40 | an owner with fewer than ten slugs gets one of them |
| Slugs.GeneratedKeyIsWellFormed | src/core/utils/slug.util.ts:76-100 | every derived project key satisfies the rule for typed keys and has two to five letters |
| SlugReference.ProjectKeyIs | src/core/utils/slug.util.ts:76-100 | the derived key is the first letters of the words, five at most, or the first five letters of a single word, or is made up with random letters |
| SlugReference.WordsAre | src/core/utils/slug.util.ts:83-93 | the words are the maximal runs of letters |
| Slugs.SingleWordTakesFive | src/core/utils/slug.util.ts:70-95 | a one-word name gives five letters |
| Slugs.CreateWithUniqueKey | src/modules/projects/projects.service.ts:111-126 | the loop returns the first free of ten candidate keys, and fails exactly if none is |
| SlugReference.KeyCandidatesAre | src/core/utils/slug.util.ts:120-135 | the ten project keys tried: the base, its first nine characters with 2 to 9, and its first eight with the random letters |
| Slugs.CandidateKeyIsWellFormed | src/core/utils/slug.util.ts:120-135 | a well-formed base stays well formed and within ten characters at every attempt |
| Slugs.CandidateKeysDifferIff | src/core/utils/slug.util.ts:120-130 | the nine numbered candidates differ unless the base has ten characters and ends in 2 to 9 |
| Slugs.PredictableKey | src/core/utils/slug.util.ts:120-130 | a workspace with fewer than nine keys gets one of them for every other base |
| Sanitize.NonInterference | src/core/utils/sanitize.util.ts:105-146 | payload graphs that differ only below sensitive keys give one output, size marker included |
| Sanitize.SanitizedIsMasked | src/core/utils/sanitize.util.ts:111-146 | for any graph, cyclic ones too, every key at every depth that spells a secret word maps to three asterisks and containers nest at most eleven deep |
| Sanitize.SanitizedShows | src/core/utils/sanitize.util.ts:111-146 | all else is shown as it is, field by field, each object once at most; the marker stands for it exactly when the text is too long or cannot be made |
| Sanitize.SpellingDoesNotMatter | src/core/utils/sanitize.util.ts:35-41 | capitals, underscores and hyphens do not change whether a key is sensitive |
| Sanitize.SensitiveIff | src/core/utils/sanitize.util.ts:9-41 | the sensitive keys are exactly the spellings of the nineteen words listed, with capitals in any place and underscores and hyphens anywhere |
| Sanitize.SecretsAreMasked | src/core/utils/sanitize.util.ts:105-135 | a payload with the fields password, Refresh_Token and X is logged with the first two masked and the third as it is |
| Sanitize.WalkAlike | src/core/utils/sanitize.util.ts:111-135 | at any depth and with any objects seen, two such graphs are walked alike |
| Sanitize.WalkShows | src/core/utils/sanitize.util.ts:111-135 | the walk adds to the seen objects exactly those it writes out |
| Sanitize.Walker.WalkValue | src/core/utils/sanitize.util.ts:111-135 | the recursion with the shared set and its two loops compute the walk |
| Sanitize.SanitizeValue | src/core/utils/sanitize.util.ts:105-109 | a new set, the walk, then the size limit; in the result every key that spells a secret word is masked |
| CursorPaging.AllRowsOnce | src/modules/issues/services/issues-activity.service.ts:51-65 | following the cursors gives every row once, in order, in max(1, ceil(n / take)) pages |
| CursorPaging.PageIs | src/modules/issues/issues.service.ts:306-322 | a page is the next rows and says there are more exactly when there are |
| CursorPaging.NewerRowsDoNotShiftPages | src/modules/users/users.service.ts:38-50 | rows that arrive at the front in between change no later page |
| CursorPaging.CursorRowGoneIff | src/modules/issues/services/issues-activity.service.ts:56-62 | from a cursor the rest follows exactly if the cursor row still exists or nothing was left |
| CursorPaging.ClampTake | src/modules/issues/services/issues-activity.service.ts:11-15 | 20 when absent or below one, 100 from 100 on, and the floor in between |
| CursorPaging.LoadActivity | src/modules/issues/services/issues-activity.service.ts:51-84 | the page, and of each kind exactly the ids its rows mention |

## Left out

- Controllers, guards, mail, push, SSE, cache invalidation calls from services, audit logging and realtime events: plumbing around the modelled calls.
- Weaker isolation than serialisable transactions, and SQL internals: transactions are atomic steps, foreign keys and unique indexes hold.
- Upload: the status probe's answer, and how the file type, issue access and used storage are looked up (`Init` takes the answers); a file left over when its call stops between upload and commit; `receivedChunks` without duplicates and an exact `bytesReceived` are claimed for calls that do not overlap only.
- Refresh tokens: user agent and IP metadata, `lastUsedAt`, JWT and bcrypt; tokens are fresh values and passwords compare as values.
- Login by OAuth: it creates a token row like `Login`, and rests on no password; registration and the mailing of reset codes.
- CSV: the database query, its filters and limits, and the byte encoding.
- TimezoneIso.ReadsBack: the offset is below a day, as ECMA-262 has it for every time zone.
- TimezoneIso.ExactInWholeMinutes: likewise.
- TimezoneIso: zone names and their rules enter as the offset at the instant; what the platform makes of a string outside the standard's date format is a parameter; an invalid date, for which the formatter throws.
- `transformDatesInResponse`: it maps the printer over a tree.
- Recurring rules: daylight-saving jumps (a local day is 24 hours), template parsing, and the label links, which are made without a project check.
- CacheTags.CacheTagsService.Set: two stores that rewrite one tag's list at the same time, because it is read and rewritten without a lock; a store that comes long after its load is modelled.
- CacheTags: a source change and its invalidation are one step.
- A TTL of zero is taken to mean no expiry, as cache-manager's store does.
- ThrottleOverrides.ThrottleOverridesService.GetOverride: a reload that overlaps a mutation can cache the older rows for up to 30 seconds; calls here do not overlap, and the clock is at least 30 seconds past 1970.
- WorkspaceRaces: the member quota when additions overlap, and accounts that are deleted.
- Sprints: dates, names, velocity, burndown and the cumulative flow query.
- IssueScope.IssueServices.Update: the order of the activity rows of one update, their user and action, and how a description is sanitised and a date read (whether it can be is a parameter here, what is stored for it one in IssueHistory); labels, links, watchers and custom fields.
- IssueScope: deletion of a project or board with everything in it, and of accounts; the project access of the caller.
- Slugs.SlugIsWellFormed: lower-casing and Unicode decomposition enter as functions that leave no capital letter and do not touch slug text.
- Sanitize: keys are lower-cased in A to Z only, a field named `__proto__` is a field like any other, getters and sparse arrays are not modelled, and `JSON.stringify` is any function of the output; header filtering and route lists are left out.
- Cursor paging: ties in the sort column, which the database may order differently from page to page; the rows are one fixed order.
- Settings, feature flags, webhooks, the log buffer, permissions and raw SQL reports: easier than the modules above or not visible as code.
