# Verified model of the field-service backend

A Dafny model of the state machines this backend keeps in its database tables, and of the loops that drive
them, with proofs about whole runs. `dafny verify dfyconfig.toml` checks everything.

Each table is a map, each service call a step over the tables, and a run is a list of calls. The code that
works statement by statement (the services, the sync worker, the backfill script) is also written as classes
with loops, and each method's contract says that it is exactly the step the theorems are about. Calls are
modelled whole. Refresh, password reset, the OAuth callback, webhook enqueueing, invoice edits, booking status
changes and materialization are also cut where the source reads, awaits and then writes, so that other calls can
come in between, and login's lockout and the queue's worker are cut at every statement; the theorems say which
form they speak of.
The other calls are modelled whole only.

| modules | models |
|---|---|
| `AuthSessions`, `SessionLedger`, `RefreshReuse`, `SessionCleanup`, `Expiry` | sessions, refresh-token rotation, revocation, `requireAuth`, what they grant and for how long, the cleanup job and its lifetime setting |
| `Lockout`, `LockoutStreaks`, `LockoutRace` | login attempts per (email, IP), one after the other and overlapping |
| `Accounts`, `AccountAnswers`, `ResetRace`, `AuthService` | registration, login, verification, password reset over all of these tables, their answers, interleaved resets; the service as a class |
| `SyncQueue`, `SyncBackoff`, `SyncDedup`, `SyncOutcomes`, `SyncWorker` | the sync job queue under interleaved workers, its retry spacing, its de-duplication, what becomes of a job; the guarded scheduler as a class |
| `Recurrence`, `MaterializeRace` | occurrence generation and materialization, and overlapping calls of it |
| `Positions`, `Routes`, `RouteHistory`, `RouteService` | route stop positions under add, reorder, remove and the backfill's upserts, with and without the unique index |
| `Backfill`, `BackfillRuns`, `BackfillScript` | the scheduling backfill: gathering, sorting, numbering, reruns |
| `QuickBooks` | connection activation and one-time OAuth states |
| `Invoices`, `InvoiceContent` | drafts, lines, work-order links, status transitions |
| `Bookings`, `BookingHistory` | bookings, their statuses, the default status, the status event log |
| `Slugs` | the slug normalizer and the choice of an organization's slug |
| `Prelude` | shared vocabulary |

Assumed throughout: ids, session ids and refresh tokens are fresh (collisions of one-time tokens and of slugs are
modelled), a failed statement aborts its transaction (the database is PostgreSQL), hashing
is injective, the clock does not go back, and the unique keys of the Prisma schema and its migrations hold.
Clock readings, the order in which the database returns rows whose order the query leaves open, password
verdicts, provider answers and random suffixes are parameters.

## What the calls grant

These read the outcome of a call off the calls and answers before it, not off the tables.

- A refresh is granted exactly to the last token answered for a session that nothing has ended, until it expires; the
  session is admitted exactly until a call ends it (`SessionLedger.RefreshIsAnswered`, `SessionLedger.GrantHoldsUntil`).
- A login that no lock refuses succeeds exactly with the password last set for the email, by registration or reset, and
  where required once the email was verified; a lock refuses it exactly while its streak of failures is full and running
  out (`AccountAnswers.LogsInExactly`, `AccountAnswers.LocksExactly`).
- A completed sync job was processed, itself or one with its payload, with one scheduler exactly one of these
  (`SyncOutcomes.CompletedIsRepresented`, `SyncOutcomes.ExactlyOneIsProcessed`).
- An OAuth callback is accepted exactly when its state is open, the key is set and the exchange succeeds
  (`QuickBooks.AcceptedExactlyWhen`).
- Invoice lines and links, bookings, statuses and route stops are what the calls answered for them, read in order, amount
  to (`InvoiceContent.ContentIsHistory`, `BookingHistory.BookingIsHistory`, `BookingHistory.StatusIsHistory`,
  `RouteHistory.StopIsHistory`).

## Where the code does less than it promises

Each of these is proved, with the exact condition where one is named, not only an example.

- `reorderRouteStops` writes positions one at a time under the unique index on (organization, route,
  position), which is checked at every write. On a route numbered 1..n, and that is every state the three stop
  calls alone reach from an empty stop table, a reorder request either names the stops already in places 1..k in
  that order, or fails (`Routes.IndexedReorderNeverReorders`, `Routes.InertExactlyWhenContiguous`). Without the
  index it does what it promises.
- The numbering 1..n is not kept by everything that writes the table: the backfill moves stops between routes
  and can leave gaps. `Routes.PositionsStayContiguousIff` says exactly when it does not, and
  `Routes.GapLetsReorder` shows a reorder that then goes through.
- The backfill calls itself idempotent. Under the same index a rerun completes exactly when every route's
  bookings come out in the order written before (`BackfillRuns.RerunCompletesIff`); a tie in start time read
  the other way round, or times swapped within a day, stops it. It runs in no transaction, so what it wrote
  before stays.
- The cleanup job and the JWT library read one lifetime setting with two parsers. Cleanup is invisible to
  refresh exactly when its own reading is not the shorter one (`SessionCleanup.CleanupInvisibleIff`); "1y" is
  365 days to the cleanup (`Expiry.YearSettingShows`). With refreshes under way it is invisible exactly to the
  runs in which none comes back to a deleted row (`SessionCleanup.InvisibleToSplitRunIff`).
- A refresh token, and an OAuth state, can be accepted twice when two calls pass their check before either
  writes: exactly when a write no longer finds what its check saw (`RefreshReuse.SingleUseIff`,
  `QuickBooks.AcceptedOnceIff`). Revocation is final all the same.
- A reset token can change the password twice, or after it was superseded, when its reset is past the check:
  used tokens are refused exactly in runs whose writes find them unused (`ResetRace.RefusesUsedIff`), and in
  those each changes the password at most once (`ResetRace.FreshChangesOnce`).
- The token loops try five times inside one transaction, which the first collision aborts: a token is issued
  exactly when the first draw is free (`Accounts.IssuedExactlyWhen`).
- The lockout guard, the count and the deletion of stale rows do not look again when they write. With two logins
  of a key past the guard together one guess too many is evaluated, two failures that meet one lock clear it, and
  two that look before either writes count as one. The bound holds of all runs with up to n logins handled
  together exactly when n is one (`LockoutRace.BoundIff`), and of a single stretch whenever no failure meets a
  lock, no two overlap between lookup and write, and every write finds the row its lookup saw
  (`LockoutRace.FreshBound`).
- The queue's claim looks at the status only, not at the scheduled time: when jobs are retried at all, backoff
  holds exactly for one scheduler (`SyncBackoff.SpacingIff`). Racing webhook deliveries together with two
  workers process one payload twice (`SyncDedup.ProcessedOnceIff`).
- An invoice edit does not look at the status again when it writes. Interleaved calls can change the lines of
  an issued invoice, exactly through late writes (`Invoices.FrozenIff`); break the null pattern of the timestamps,
  exactly through late status writes that neither follow nor repeat the status they meet
  (`Invoices.PatternedIff`); and leave the transition map, exactly through status writes that are not fresh
  (`Invoices.MovesFollowMapIff`). Voiding a paid invoice does the last two at once and makes three transitions
  (`Invoices.LateVoid`). The order of the timestamps is lost, besides, when a payment or voiding read the clock
  before the issue date it meets (`Invoices.StampedIff`), and that can happen though every check still holds
  (`Invoices.VoidedBeforeIssued`).
- `createInvoice` lets a repeated work-order id through its check and then fails on the unique link key
  (`Invoices.CreatedExactlyWhen`); `addInvoiceWorkOrders` skips it.
- Two changes of a booking to one status, interleaved, log it twice, and the backfill rewrites statuses without
  logging. `Bookings.LogIsFaithfulIff` says exactly which runs keep the log in step and free of repeats,
  `Bookings.BackfillBreaksTheLog` shows one that does not.
- Two overlapping materializations store the larger count, not the sum
  (`MaterializeRace.OverlappingPairStoresTheLarger`); no occurrence is repeated or left out all the same
  (`MaterializeRace.OverlappingRunsHaveNoGaps`).

## Model

| member | source | states |
|---|---|---|
| `AuthSessions.StepKeepsInv` | src/modules/auth/auth.service.ts:361-430 | every session call, split refreshes included, keeps: each signed token names its owner's session and expires within one signing lifetime of that row's last write; a stored token is one that was signed for its row |
| `AuthSessions.RunKeepsInv` | src/modules/auth/auth.service.ts:361-430 | the same over every run |
| `AuthSessions.RefreshIsReadThenWrite` | src/modules/auth/auth.service.ts:386-411 | the atomic refresh is exactly its read half followed by its write half, with the same answer |
| `AuthSessions.WhatRevokes` | src/modules/auth/auth.service.ts:374-430 | exactly which sessions an expired refresh, a replay, a logout and a logout-all kill, and that each leaves every other row alone |
| `AuthSessions.GoneStep` | src/modules/auth/auth.service.ts:361-430 | no step, an in-flight refresh write included, revives a revoked or deleted session |
| `AuthSessions.RevocationIsFinal` | src/http/middleware/requireAuth.ts:34-47 | after any later run, every refresh of a token naming a revoked session is refused at its check and `requireAuth` admits none of its access tokens |
| `AuthSessions.InFlightMintIsDead` | src/modules/auth/auth.service.ts:404-411 | a token minted by a refresh that was already past its check when the session was revoked is dead from the start and for ever |
| `AuthSessions.ExchangeSpends` | src/modules/auth/auth.service.ts:404-409 | a successful refresh spends the token it was given |
| `AuthSessions.SpentStep` | src/modules/auth/auth.service.ts:386-402 | no step, split refreshes included, makes a spent token exchangeable again |
| `AuthSessions.SpentNeverExchanged` | src/modules/auth/auth.service.ts:386-402 | no later whole refresh call with a spent token succeeds; for writes already under way see `RefreshReuse.SingleUseIff` |
| `AuthSessions.ExchangedAtMostOnce` | src/modules/auth/auth.service.ts:361-412 | over every run of atomic calls a refresh token is exchanged at most once |
| `AuthSessions.SplitRefreshExchangesTwice` | src/modules/auth/auth.service.ts:386-409 | two refreshes that both pass the check before either writes are both answered: single use needs atomicity |
| `AuthSessions.ReplayRevokesEverything` | src/modules/auth/auth.service.ts:394-402 | replaying a superseded, unexpired token of a live session kills every session of that user, for good; tokens name their owner's session |
| `RefreshReuse.ReuseIsStale` | src/modules/auth/auth.service.ts:386-409 | an exchange is the second of its token exactly when its write replaces another token than the one its read saw |
| `RefreshReuse.StepAccounts` | src/modules/auth/auth.service.ts:361-430 | otherwise the used tokens of live sessions stay exactly those no longer stored |
| `RefreshReuse.SingleUseIff` | src/modules/auth/auth.service.ts:361-412 | exactly which interleaved runs exchange every token at most once: those without a stale write |
| `RefreshReuse.AtomicIsSingleUse` | src/modules/auth/auth.service.ts:361-412 | runs of atomic calls have none |
| `SessionLedger.StepTallies` | src/modules/auth/auth.service.ts:361-430 | a ledger kept from calls and answers alone stays right: the sessions nothing has ended are the valid rows, each with the token last answered and when |
| `SessionLedger.RefreshIsAnswered` | src/modules/auth/auth.service.ts:361-412 | after every interleaved run a refresh is granted exactly when its token is the last one answered for a session nothing has ended and has not expired, with a new token of the same user and session; each refusal is the one its reason calls for |
| `SessionLedger.CreateIsAnswered` | src/modules/auth/auth.service.ts:345-358 | a session is opened for the user asked for, under an id no token ever named, for one signing lifetime |
| `SessionLedger.AdmitsExactly` | src/http/middleware/requireAuth.ts:34-47 | `requireAuth`'s session test admits an access token exactly when it names no session or one of its own user that nothing has ended |
| `SessionLedger.GrantOpens` | src/modules/auth/auth.service.ts:404-412 | an answered pair opens its session or moves it on; a write under way does so unless the session was ended |
| `SessionLedger.FreshGrantIsGood` | src/modules/auth/auth.service.ts:404-412 | a pair just answered is admitted and good for another pair of the same user and session |
| `SessionLedger.GrantHoldsUntil` | src/modules/auth/auth.service.ts:361-430 | over every later interleaved run it is admitted exactly until a logout, a revocation, an expired refresh or a sweep of that session, and good for another pair exactly until besides the session has moved on or the token has expired |
| `SessionCleanup.SweepStaysRelated` | src/jobs/sessionCleanup.ts:69-85 | deleting rows leaves a table that refresh cannot tell from the undeleted one, when the cleanup waits a signing lifetime |
| `SessionCleanup.LockStep` | src/modules/auth/auth.service.ts:361-412 | every other call but a write that finds its row deleted takes indistinguishable tables to indistinguishable tables, and a refresh or half of one answers the same on both |
| `SessionCleanup.MissedWriteShows` | src/modules/auth/auth.service.ts:404-409 | a write whose row was deleted fails where, without the cleanup, it issues a token |
| `SessionCleanup.ErasedRunLooksTheSame` | src/jobs/sessionCleanup.ts:69-85 | from indistinguishable tables, erasing all cleanups from an interleaved run changes no answer of refresh exactly when no write finds its row deleted |
| `SessionCleanup.AtomicMissesNothing` | src/modules/auth/auth.service.ts:361-412 | runs of atomic calls have no such write |
| `SessionCleanup.InvisibleToSplitRunIff` | src/jobs/sessionCleanup.ts:69-85 | a cleanup that waits a signing lifetime is invisible to refresh on an interleaved run exactly when no write finds its row deleted |
| `SessionCleanup.SweptUnderWay` | src/modules/auth/auth.service.ts:386-409 | a session logged out behind a refresh under way, and swept, is such a run, however long the cleanup waits |
| `SessionCleanup.EarlySweepShows` | src/jobs/sessionCleanup.ts:75-78 | a cleanup that waits less than a signing lifetime changes the answer of some refresh |
| `SessionCleanup.CleanupInvisibleIff` | src/jobs/sessionCleanup.ts:69-85 | cleanup is invisible to refresh on every run of atomic calls exactly when it waits at least one signing lifetime |
| `Expiry.ReadsUnits` | src/jobs/sessionCleanup.ts:42-67 | the setting's digits, white space and unit, in either case, are read as that many milliseconds |
| `Expiry.UnitsFit` | src/jobs/sessionCleanup.ts:8-40 | each unit is so many of the one below, under all its names |
| `Expiry.ReadsSeconds` | src/jobs/sessionCleanup.ts:42-54 | a plain number is read as seconds, and anything not positive, empty or not beginning with a digit as nothing |
| `Expiry.AmountHasFraction` | src/jobs/sessionCleanup.ts:56-66 | digits after the point count as tenths, hundredths and so on |
| `Expiry.YearIs365Days` | src/jobs/sessionCleanup.ts:8-40 | "1y" is read as 31 536 000 000 ms |
| `Expiry.YearSettingShows` | src/jobs/sessionCleanup.ts:42-85 | with that setting and a signing lifetime read as more, some refresh notices the cleanup |
| `Lockout.StepKeepsInv` | src/modules/auth/auth.service.ts:143-228 | every login call keeps the attempt rows consistent: failures in order and not in the future, unlocked only below the maximum, a lock ending one lockout after the last failure |
| `Lockout.RunKeepsInv` | src/modules/auth/auth.service.ts:143-228 | the same over every timed run |
| `Lockout.StepUsesRoom` | src/modules/auth/auth.service.ts:143-228 | each evaluated failure uses up one of the attempts its key has left in the span |
| `Lockout.FailuresFitRoom` | src/modules/auth/auth.service.ts:143-228 | over logins made one after the other, the evaluated failures of a success-free stretch fit the attempts left at its start |
| `Lockout.LockoutBound` | src/modules/auth/auth.service.ts:172-228 | over logins made one after the other, at most `loginMaxAttempts` evaluated failures of one (email, IP) in every short success-free span |
| `Lockout.Burst` | src/modules/auth/auth.service.ts:172-228 | a row that has room lets exactly that many failures through, and the last one locks it |
| `Lockout.TooManyInALongSpan` | src/modules/auth/auth.service.ts:158-168 | a span the bound does not cover contains a run with more failures |
| `Lockout.LockoutBoundIff` | src/modules/auth/auth.service.ts:143-228 | that bound holds of all such runs exactly when the span is shorter than the lockout and, unless one failure locks, fits the attempt window |
| `LockoutStreaks.StepAgrees` | src/modules/auth/auth.service.ts:143-234 | a row says exactly what the key's streak of failures is: how many, since when, the last, and whether it locks |
| `LockoutStreaks.EveryAnswer` | src/modules/auth/auth.service.ts:143-234 | after every run of logins one is refused exactly while a full streak is less than one lockout old, and otherwise answered as its credentials call for |
| `LockoutRace.StepKeepsInv` | src/modules/auth/auth.service.ts:143-228 | every statement of every interleaving keeps: a lock ends one lockout after the row's last failure, an unlocked row counts fewer than the maximum, and what a login has seen was such a row |
| `LockoutRace.RecordUsesRoom` | src/modules/auth/auth.service.ts:185-227 | the write of a failure over the unlocked row it looked up uses up one of the key's attempts |
| `LockoutRace.DiscardKeepsRoom` | src/modules/auth/auth.service.ts:158-168 | deleting the stale row the guard saw gives no attempt back |
| `LockoutRace.StepUsesRoom` | src/modules/auth/auth.service.ts:143-228 | every undisturbed statement, with the failure looked up and not yet written taken into account, uses up an attempt for each failure evaluated |
| `LockoutRace.FreshBound` | src/modules/auth/auth.service.ts:321-343 | the bound for interleaved logins, in every stretch in which no failure of the key meets a lock, no two overlap between lookup and write, and every write finds the row its lookup saw |
| `LockoutRace.TwoMeetingsUnlock` | src/modules/auth/auth.service.ts:185-218 | two failures that meet one lock clear it |
| `LockoutRace.CrossingsCountOnce` | src/modules/auth/auth.service.ts:179-227 | two failures that look before either writes count as one |
| `LockoutRace.LateWritesCountFromTheLookup` | src/modules/auth/auth.service.ts:179-227 | what the write of a failure leaves whatever came in between: it counts on from what was looked up, and fails without effect where a row has come or gone |
| `LockoutRace.DiscardLosesAFailure` | src/modules/auth/auth.service.ts:149-168 | the guard's deletion removes whatever row has come in the place of the stale one it saw |
| `LockoutRace.StepStaysClean` | src/modules/auth/auth.service.ts:143-228 | logins of one key one at a time disturb nothing: what each has seen is still there |
| `LockoutRace.BoundWithoutOverlap` | src/modules/auth/auth.service.ts:321-343 | so the bound holds when logins of one (email, IP) do not overlap, whatever other keys do |
| `LockoutRace.ExpandRuns` | src/modules/auth/auth.service.ts:321-343 | logins made one after the other are their statements run back to back, with the same table and the same answers |
| `LockoutRace.CrowdExceeds` | src/modules/auth/auth.service.ts:326-340 | two logins past the guard together, with one attempt left: one failure too many at one instant |
| `LockoutRace.BoundIff` | src/modules/auth/auth.service.ts:143-228 | over all runs that handle up to n logins together the bound holds exactly when the span is short and n is one |
| `Accounts.IssueKeepsTable` | src/modules/auth/auth.service.ts:110-141 | issuing a token keeps the token table consistent and makes the new, unused token the user's only unused one |
| `Accounts.IssuedExactlyWhen` | src/modules/auth/auth.service.ts:115-140 | a token is issued exactly when the first one drawn collides with none: a collision aborts the transaction the other four tries run in |
| `Accounts.StepKeepsInv` | src/modules/auth/auth.service.ts:237-551 | every whole account call keeps: one unused reset and verification token per user, unique emails, sessions only of verified users |
| `Accounts.RunKeepsInv` | src/modules/auth/auth.service.ts:237-551 | the same over every run, under one fixed configuration |
| `Accounts.ReachableAccounts` | src/modules/auth/auth.service.ts:110-355 | on every state that whole calls reach, two unused reset tokens of one user are the same token, and every session's user exists and is verified |
| `AccountAnswers.StepAgrees` | src/modules/auth/auth.service.ts:237-551 | a log kept from calls and answers alone stays right: passwords last set, emails verified, one-time tokens with owner and expiry |
| `AccountAnswers.EveryAnswer` | src/modules/auth/auth.service.ts:237-551 | after every run of whole calls every answer of register, login, verify, request-reset and reset is what the calls and answers before it say, expiries and sessions' users included |
| `AccountAnswers.LogsInExactly` | src/modules/auth/auth.service.ts:337-358 | a login no lock refuses succeeds exactly with the password last set for the email by a registration or a reset and, where required, once a verification token of it has been answered |
| `AccountAnswers.LocksExactly` | src/modules/auth/auth.service.ts:143-170 | and a lock refuses it exactly while the streak of its (email, IP) is full and running out |
| `AccountAnswers.AddressesAreCut` | src/modules/auth/auth.service.ts:60-63 | two addresses count as one exactly when they agree in their first 128 characters; none counts as unknown |
| `AccountAnswers.HandoverIsGood` | src/modules/auth/auth.service.ts:345-358 | a session answered by a login or registration is of an existing user, admitted, and good for refreshing |
| `Accounts.UsedUpStep` | src/modules/auth/auth.service.ts:512-516 | a used or expired-and-consumed reset token is refused and no step un-uses it |
| `Accounts.UsedUpForever` | src/modules/auth/auth.service.ts:512-540 | over every later run of whole calls it changes no password; for resets already past their check see `ResetRace.RefusesUsedIff` |
| `Accounts.TokenChangesPasswordAtMostOnce` | src/modules/auth/auth.service.ts:505-551 | over every run of whole calls each reset token changes the password at most once |
| `ResetRace.ResetIsReadThenWrite` | src/modules/auth/auth.service.ts:505-551 | the whole reset is exactly its checks followed by its transaction |
| `ResetRace.RunKeepsInv` | src/modules/auth/auth.service.ts:505-551 | with resets cut at their await, interleaved with other whole calls, the account invariant still holds: one unused reset token per user, sessions only of verified users |
| `ResetRace.UsedStays` | src/modules/auth/auth.service.ts:533-550 | nothing un-uses a token, every change uses its token up, and only the second half of a cut reset changes with a used one |
| `ResetRace.RefusesUsedIff` | src/modules/auth/auth.service.ts:507-536 | exactly which interleaved runs refuse every token used at any earlier point: those in which each write finds its token unused |
| `ResetRace.FreshChangesOnce` | src/modules/auth/auth.service.ts:507-536 | in those runs each token changes the password at most once |
| `ResetRace.ChangesOnceIff` | src/modules/auth/auth.service.ts:507-536 | for one token: it changes the password at most once exactly when no write comes after it has done so, as when that write finds its token unused |
| `ResetRace.InterleavedResetsChangeTwice` | src/modules/auth/auth.service.ts:507-550 | two resets with one token, both checked before either writes, both change the password |
| `ResetRace.SupersededTokenStillChanges` | src/modules/auth/auth.service.ts:507-550 | a token superseded while its reset is under way still changes the password |
| `Accounts.CoreRun` | src/modules/auth/auth.service.ts:237-595 | every account run is, on the session table, a run of the session machine, so its theorems apply |
| `Accounts.ResetIsFinal` | src/modules/auth/auth.service.ts:533-550 | a successful reset sets the password, uses up all the user's earlier reset tokens, and kills all earlier sessions for refresh and `requireAuth`, over any later run |
| `Accounts.LockoutRun` | src/modules/auth/auth.service.ts:321-343 | logins of an account run are, on the attempt table, a run of the lockout machine, and the answers agree |
| `Accounts.LoginCallsAreTimed` | src/modules/auth/auth.service.ts:321-343 | and they are ordered in time, within the run's span |
| `Accounts.GuessesAreBounded` | src/modules/auth/auth.service.ts:321-343 | over runs of whole account calls, one (email, IP) gets at most `loginMaxAttempts` wrong guesses evaluated in a short stretch without a success; `LockoutRace` has the overlapping logins |
| `AuthService.Service.MintSessionTokens` | src/modules/auth/auth.service.ts:69-75 | the tokens name user and session and are recorded as signed |
| `AuthService.Service.Refresh` | src/modules/auth/auth.service.ts:361-412 | the statements amount to the atomic refresh on every token: what it grants and refuses is `SessionLedger.RefreshIsAnswered`, and single use, reuse detection and final revocation hold of them |
| `AuthService.Service.Logout` | src/modules/auth/auth.service.ts:415-430 | kills exactly the session a verified token names and ignores bogus tokens; final by `AuthSessions.RevocationIsFinal` |
| `AuthService.Service.LogoutAll` | src/modules/auth/auth.service.ts:589-595 | kills exactly the user's sessions and returns how many rows that was |
| `AuthService.Service.EnsureLoginNotLocked` | src/modules/auth/auth.service.ts:143-170 | answers whether the key is unlocked, and deletes exactly a stale row |
| `AuthService.Service.RecordLoginFailure` | src/modules/auth/auth.service.ts:172-228 | writes exactly the next failure row, in all three branches |
| `AuthService.Service.Login` | src/modules/auth/auth.service.ts:321-358 | exactly who gets in is `AccountAnswers.LogsInExactly`; run without interruption, a locked key changes nothing, a wrong password records a failure, a right one clears the row and opens a session; its guard and its record are the two methods above, which `LockoutRace` interleaves statement by statement |
| `AuthService.Service.CreateToken` | src/modules/auth/auth.service.ts:110-141 | the retry loop in its transaction: returns the first token drawn when it is free, having used up the user's earlier ones, and rolls back otherwise |
| `AuthService.Service.Register` | src/modules/auth/auth.service.ts:237-318 | a taken email or exhausted tokens leave no trace; else the user, and either a token or, when no verification is asked for, a session: the step whose invariant is `Accounts.RunKeepsInv` |
| `AuthService.Service.VerifyEmail` | src/modules/auth/auth.service.ts:433-475 | an unusable token changes nothing, an expired one is used up, a good one verifies the user and uses up all the user's tokens |
| `AuthService.Service.RequestPasswordReset` | src/modules/auth/auth.service.ts:477-503 | leaves the known user exactly one unused reset token; an unknown email changes nothing |
| `AuthService.Service.ResetPassword` | src/modules/auth/auth.service.ts:505-551 | run without interruption, an unusable token changes nothing, an expired one is used up, a good one changes the password and revokes every session of the user (`Accounts.ResetIsFinal`); `ResetRace` interleaves its halves |
| `AuthService.Service.CleanupExpiredSessions` | src/jobs/sessionCleanup.ts:69-85 | deletes exactly the rows the filter selects and counts them |
| `AuthService.Service.RequireAuth` | src/http/middleware/requireAuth.ts:21-47 | admits exactly existing users whose token names no session or a live one of theirs |
| `SyncQueue.StepKeepsInv` | src/jobs/syncJobs.ts:141-193 | every statement of every worker keeps the queue invariant |
| `SyncQueue.RunKeepsInv` | src/jobs/syncJobs.ts:141-193 | the same over every interleaving |
| `SyncQueue.QueueIsSafe` | src/jobs/syncJobs.ts:159-190 | over every interleaving of any number of workers: one owner per claimed job, owned jobs are PROCESSING, PENDING means attempts left, FAILED means all attempts used |
| `SyncQueue.FinishedIsFinal` | src/jobs/syncJobs.ts:60-96 | a COMPLETED or FAILED row never changes again |
| `SyncQueue.CrashOrphans` | src/jobs/syncJobs.ts:141-193 | a worker that stops dead leaves its job being processed, and no later run touches it |
| `SyncQueue.StepCounts` | src/jobs/syncJobs.ts:160-168 | each claim, and nothing else, adds one to the recorded attempts |
| `SyncQueue.ClaimsAreRecorded` | src/jobs/syncJobs.ts:160-168 | the claims of a run are the attempts it records |
| `SyncQueue.ClaimsAreBounded` | src/jobs/syncJobs.ts:71-96 | a run hands out at most `maxAttempts` claims per job in all, however the workers interleave |
| `SyncBackoff.WaitIsPower` | src/jobs/syncJobs.ts:47-48 | the doubled delay is the base times a power of two |
| `SyncBackoff.DelayDoubles` | src/jobs/syncJobs.ts:47-48 | `retryDelayMs` of the k-th attempt is the base doubled k - 1 times |
| `SyncBackoff.RunKeepsSolo` | src/jobs/syncJobs.ts:141-193 | with one worker every start of every job waits for the scheduled time its last failure set |
| `SyncBackoff.DelaysAddUp` | src/jobs/syncJobs.ts:75-84 | start k of a job comes no earlier than its first failure plus the sum of the k delays |
| `SyncBackoff.HistoryIsSpaced` | src/jobs/syncJobs.ts:75-84 | each start waits the delay of the failure before it, and the n-th start the sum of the delays |
| `SyncBackoff.OneSchedulerIsSpaced` | src/jobs/syncJobs.ts:195-219 | every run of one scheduler is spaced so |
| `SyncBackoff.StaleListStartsEarly` | src/jobs/syncJobs.ts:148-161 | two workers: one claims at once, from its stale list, a job the other has just failed |
| `SyncBackoff.SpacingIff` | src/jobs/syncJobs.ts:148-161 | spacing holds of all runs of n workers exactly when n is at most one, or a job has only one attempt |
| `SyncDedup.OneSchedulerProcessesOnce` | src/jobs/syncJobs.ts:98-132 | with one scheduler, racing producers included, at most one job of a payload completes as processed |
| `SyncDedup.OneUnfailedJobPerPayload` | src/modules/integrations/quickbooks/quickbooks.service.ts:280-306 | with atomic find-then-create, for any number of workers, at most one job of a payload has not failed |
| `SyncDedup.UnfailedMeansOnce` | src/jobs/syncJobs.ts:98-132 | and then at most one completes as processed |
| `SyncDedup.RacingProducers` | src/modules/integrations/quickbooks/quickbooks.service.ts:280-306 | two racing webhook deliveries create two pending jobs of one payload |
| `SyncDedup.ProcessedTwice` | src/jobs/syncJobs.ts:98-132 | and two workers then process both |
| `SyncDedup.ProcessedOnceIff` | src/jobs/syncJobs.ts:98-132 | processed at most once in all runs exactly when there is at most one worker or the producers are atomic |
| `SyncOutcomes.SkippedExactlyTwins` | src/jobs/syncJobs.ts:98-125 | over every run a job that completes without being processed has another completed job with its organization, connection, type, idempotency key and event, and the key is not empty |
| `SyncOutcomes.CompletedIsRepresented` | src/jobs/syncJobs.ts:98-138 | every completed job is a webhook and was processed, itself or, when it has an idempotency key, one with its payload |
| `SyncOutcomes.ExactlyOneIsProcessed` | src/jobs/syncJobs.ts:98-193 | with one scheduler exactly one job of every completed identifiable payload was processed |
| `SyncOutcomes.PassSettles` | src/jobs/syncJobs.ts:141-193 | one pass over a due job completes it exactly when it is a webhook and nothing throws, as processed unless it has a completed twin; else it waits the doubled delay, or has failed at the last attempt; no other row changes |
| `SyncOutcomes.DeliveryAdds` | src/modules/integrations/quickbooks/quickbooks.service.ts:275-309 | a webhook delivery adds one job, due at once, exactly when no unfailed job has its payload |
| `SyncWorker.WholeRunIsSolo` | src/jobs/syncJobs.ts:195-219 | the runs of the code are runs of one scheduler, so the two theorems above apply to them |
| `SyncWorker.Scheduler.ClaimJob` | src/jobs/syncJobs.ts:160-172 | the conditional update claims exactly a row that is still PENDING |
| `SyncWorker.Scheduler.ProcessJob` | src/jobs/syncJobs.ts:98-139 | throws exactly for unsupported jobs and handler errors; duplicate exactly when a completed twin exists, which `SyncOutcomes.SkippedExactlyTwins` describes |
| `SyncWorker.Scheduler.MarkCompleted` | src/jobs/syncJobs.ts:60-69 | marks exactly the job it is about, or nothing when the statement throws |
| `SyncWorker.Scheduler.MarkJobFailed` | src/jobs/syncJobs.ts:71-96 | below the maximum back to PENDING after the doubled delay, else FAILED for good |
| `SyncWorker.Scheduler.ProcessPendingSyncJobs` | src/jobs/syncJobs.ts:141-193 | the loop is exactly a run of the worker's statements, and its result counts the jobs it completed |
| `SyncWorker.Scheduler.OnTimer` | src/jobs/syncJobs.ts:199-219 | a tick is skipped while a run is in progress; the flag is cleared however the run ends |
| `Recurrence.BuiltRuleIsThePattern` | src/modules/service-contracts/recurrence.service.ts:24-53 | the rule is built exactly when all fields are readable and `until` is not before `dtstart`, and then denotes the pattern's instants between the contract's own two, whatever DTSTART and UNTIL the string names |
| `Recurrence.GenerateNextOccurrences` | src/modules/service-contracts/recurrence.service.ts:55-74 | the loop returns exactly the next `count` occurrences, none for a count of zero or less |
| `Recurrence.NextIsTheNext` | src/modules/service-contracts/recurrence.service.ts:55-74 | these are later than the cursor, strictly increasing, with none skipped, and fewer than asked for only when there are no more |
| `Recurrence.NextIsDetermined` | src/modules/service-contracts/recurrence.service.ts:55-74 | no other list fits that description |
| `Recurrence.NextSplits` | src/modules/service-contracts/recurrence.service.ts:55-74 | asking for a and then b from where that ended is asking for a + b |
| `Recurrence.MaterializeAppendsTheNext` | src/modules/service-contracts/serviceContracts.service.ts:411-433 | each call stores exactly the next min(count, remaining) occurrences, all later than every stored one |
| `Recurrence.TwoCallsAreOne` | src/modules/service-contracts/serviceContracts.service.ts:411-433 | two calls of a then b at one instant leave what one call of a + b leaves |
| `Recurrence.OnlyTheTotalMatters` | src/modules/service-contracts/serviceContracts.service.ts:411-433 | any number of calls at one instant leave what one call for the total leaves |
| `Recurrence.NothingSkipped` | src/modules/service-contracts/serviceContracts.service.ts:411-433 | every occurrence between the clock and the latest stored one is stored |
| `Recurrence.RunIsFaithful` | src/modules/service-contracts/serviceContracts.service.ts:411-433 | over every run of whole calls whose clock does not go back: the table is strictly increasing, holds only occurrences, and has no gap from the last call's instant on |
| `MaterializeRace.MaterializeIsLookThenInsert` | src/modules/service-contracts/serviceContracts.service.ts:411-433 | the whole call is its lookup followed by its insert |
| `MaterializeRace.StepKeepsInv` | src/modules/service-contracts/serviceContracts.service.ts:411-433 | every lookup, clock reading and insert of overlapping calls keeps: no start twice, only occurrences, none missing between the clock and a stored start |
| `MaterializeRace.OverlappingRunsHaveNoGaps` | src/modules/service-contracts/serviceContracts.service.ts:411-433 | the same over every interleaving |
| `MaterializeRace.InsertTheLarger` | src/modules/service-contracts/serviceContracts.service.ts:420-433 | inserting for a and for b from one cursor leaves what inserting for the larger leaves |
| `MaterializeRace.OverlappingPairStoresTheLarger` | src/modules/service-contracts/serviceContracts.service.ts:411-433 | two calls that both look before either inserts leave one call for the larger count; one after the other, one call for the sum |
| `Recurrence.Contract.MaterializeOccurrences` | src/modules/service-contracts/serviceContracts.service.ts:411-445 | exactly that, over the table as a field; rule errors leave it alone |
| `Positions.WriteSequence` | src/modules/scheduling/routes.service.ts:151-158 | the transaction commits exactly when there is no unique index or no row keeps a place the list needs, and then rows stand at their places in the list |
| `Positions.EveryPlaceIsHeld` | src/modules/scheduling/routes.service.ts:98-104 | pigeonhole: on a contiguous route every place 1..n is held |
| `Positions.OnlyTheCurrentOrderIsClear` | prisma/migrations/20260127000000_add_scheduling_models/migration.sql:134 | on a contiguous route the unique index lets through only lists that are in place already, and those change nothing |
| `Positions.FullListIsContiguous` | src/modules/scheduling/routes.service.ts:151-158 | writing a list of all rows numbers them 1..n in list order |
| `Positions.ReadBack` | src/modules/scheduling/routes.service.ts:160-171 | reading back in position order gives the written list and nothing else |
| `Positions.CloseUp` | src/modules/scheduling/routes.service.ts:185-198 | closing up numbers the rows 1..n in reading order, keeps every pair whose places differed in order, and never clashes from distinct positive places |
| `Positions.WriteContiguousIff` | src/modules/scheduling/routes.service.ts:151-158 | writing a list keeps the numbering 1..n exactly when no row left out holds one of the places written |
| `Positions.AppendContiguousIff` | src/modules/scheduling/routes.service.ts:98-104 | a further row keeps it exactly when it takes the next place |
| `Positions.DropContiguousIff` | scripts/scheduling/backfill-bookings.ts:198-201 | taking a row away keeps it exactly when it was the last |
| `Routes.ReorderAcceptsExactly` | src/modules/scheduling/routes.service.ts:142-149 | the length comparison accepts exactly lists of distinct ids of that route |
| `Routes.NextPlaceIsFree` | src/modules/scheduling/routes.service.ts:98-104 | the place of an added stop is above every place on the route, and within 1..n+1 |
| `Routes.RemoveClosesUp` | src/modules/scheduling/routes.service.ts:176-201 | from any positions, ties included, removing restores exactly 1..n-1 and keeps the order of stops whose places differed |
| `Routes.StepKeepsBoundedIff` | src/modules/scheduling/routes.service.ts:90-201 | the three stop calls keep every position of n stops in 1..n, partial reorders included; a backfill upsert exactly when its place and the one it leaves allow it |
| `Routes.PositionsStayInRangeIff` | scripts/scheduling/backfill-bookings.ts:191-208 | exactly which runs with backfill upserts keep it after every step |
| `Routes.PositionsStayInRange` | src/modules/scheduling/routes.service.ts:90-201 | every run of the three stop calls keeps it |
| `Routes.StepKeepsTightIff` | src/modules/scheduling/routes.service.ts:90-201 | exactly when a call keeps the positions of every route 1..n: adds and removes always, a reorder when it leaves out no stop whose place it writes, an upsert when it takes the next place and leaves no gap |
| `Routes.PositionsStayContiguousIff` | src/modules/scheduling/routes.service.ts:90-201 | exactly which runs, backfill upserts included, keep them so after every step |
| `Routes.PositionsStayContiguous` | src/modules/scheduling/routes.service.ts:90-201 | of the runs of the three stop calls: with the unique index all do, without it those whose accepted reorders are full |
| `Routes.FullReorderReadsBack` | src/modules/scheduling/routes.service.ts:151-173 | a full accepted list is read back in the requested order |
| `Routes.IndexedReorderCommitsIff` | prisma/migrations/20260127000000_add_scheduling_models/migration.sql:134 | with the index, exactly when an accepted reorder commits, and what it then leaves |
| `Routes.IndexedReorderIsInert` | prisma/migrations/20260127000000_add_scheduling_models/migration.sql:134 | with the index, on a contiguous route a reorder changes nothing or fails |
| `Routes.InertExactlyWhenContiguous` | prisma/migrations/20260127000000_add_scheduling_models/migration.sql:134 | with the index, on distinct positive places, no reorder request changes anything exactly when they are 1..n |
| `Routes.IndexedReorderNeverReorders` | prisma/migrations/20260127000000_add_scheduling_models/migration.sql:134 | so it is on every state the three stop calls reach from an empty stop table, and after upserts that leave no gaps: reordering never reorders |
| `Routes.BackfillLeavesAGap` | scripts/scheduling/backfill-bookings.ts:191-208 | a backfill upsert that moves the first of three stops to another route leaves places 2 and 3 |
| `Routes.GapLetsReorder` | prisma/migrations/20260127000000_add_scheduling_models/migration.sql:134 | and from there the index lets a reorder swap the two |
| `RouteHistory.StopIsHistory` | src/modules/scheduling/routes.service.ts:90-201 | over every run a stop is on the route last given for it, for its one booking, until it is removed |
| `RouteHistory.RunKeepsOneStop` | src/modules/scheduling/routes.service.ts:106-133 | over every run, backfill upserts included, a booking has at most one stop |
| `RouteHistory.AddIsAnswered` | src/modules/scheduling/routes.service.ts:90-133 | a stop is added exactly for an existing route and a booking of the route's crew that has none, right after the route's last stop; else the first refusal that applies, and nothing changes |
| `RouteHistory.RemoveAndReorderAnswer` | src/modules/scheduling/routes.service.ts:135-201 | exactly when a removal and a reorder are refused, changing nothing, and that neither touches another route |
| `RouteService.Service.AddRouteStop` | src/modules/scheduling/routes.service.ts:90-133 | appends at the place after the last one unless the route or booking is unknown, crews differ or the booking is routed: the step `Routes.PositionsStayContiguous` is about |
| `RouteService.Service.ReorderRouteStops` | src/modules/scheduling/routes.service.ts:135-174 | refuses exactly lists that are not distinct stops of the route, else commits or fails as `Positions.WriteSequence` says |
| `RouteService.Service.RemoveRouteStop` | src/modules/scheduling/routes.service.ts:176-201 | deletes the stop and closes up; the delete stays when closing up fails |
| `Backfill.GatherPartitions` | scripts/scheduling/backfill-bookings.ts:72-156 | every scheduled booking is in exactly one bucket, once, the one of its crew and UTC day |
| `Backfill.TargetIs` | scripts/scheduling/backfill-bookings.ts:143-155 | which bookings are scheduled, and the route each belongs to |
| `Backfill.SortedSorts` | scripts/scheduling/backfill-bookings.ts:183-187 | the sort rearranges a bucket so that no booking starts before an earlier one |
| `Backfill.AscendingIsUnique` | scripts/scheduling/backfill-bookings.ts:183-187 | with distinct starts there is one such arrangement |
| `Backfill.WritesFrom` | scripts/scheduling/backfill-bookings.ts:189-212 | the position loop goes through exactly when the rows are clear, and then every listed booking stands at its place |
| `Backfill.LegsSettle` | scripts/scheduling/backfill-bookings.ts:158-213 | after all buckets every booking of the plan stands on its route at its place, and no other stop changed |
| `Backfill.CompletesIff` | scripts/scheduling/backfill-bookings.ts:158-213 | exactly when a run completes: no index, or no bucket is refused a place |
| `BackfillRuns.ScheduledBookingIsRouted` | scripts/scheduling/backfill-bookings.ts:72-213 | after a completed run every scheduled work order's booking has its crew and start, on the route of that crew and day, in a place 1..n of the n gathered there |
| `BackfillRuns.EveryOrderIsBooked` | scripts/scheduling/backfill-bookings.ts:95-156 | after a run, completed or not, every work order has a booking with its technician's crew, its times and the status chosen, no other booking has changed, and a route's day is the UTC day its bookings start |
| `BackfillRuns.EarlierStartsComeFirst` | scripts/scheduling/backfill-bookings.ts:183-212 | two bookings of a route hold different places, the earlier start the lower |
| `BackfillRuns.SecondRun` | scripts/scheduling/backfill-bookings.ts:98-213 | a second run over the same data, read in any order, leaves every booking on its route; without ties in start the state is as it was |
| `BackfillRuns.CompletedIsOutOfTheWay` | prisma/migrations/20260127000000_add_scheduling_models/migration.sql:134 | with the index, a completed run leaves stops of other bookings outside the places it filled |
| `BackfillRuns.FreshRunCompletes` | scripts/scheduling/backfill-bookings.ts:158-213 | routes without stops are always filled, index or not |
| `BackfillRuns.RerunCompletesIff` | prisma/migrations/20260127000000_add_scheduling_models/migration.sql:134 | with the index, after a completed run from any state, a rerun completes exactly when each route's bookings come out in the order written before; it then changes no stop |
| `BackfillRuns.NoTiesIdempotent` | scripts/scheduling/backfill-bookings.ts:4-8 | the promised idempotence, with the index and after a completed run from any state, when no two bookings of a route start together |
| `BackfillRuns.TiesStopTheRerun` | scripts/scheduling/backfill-bookings.ts:4-8 | and its failure: two bookings that start together, read the other way round, stop the second run |
| `BackfillScript.Main.UpsertBookings` | scripts/scheduling/backfill-bookings.ts:77-156 | the first loop leaves exactly the specified bookings and buckets |
| `BackfillScript.Main.WriteStops` | scripts/scheduling/backfill-bookings.ts:189-212 | the position loop is exactly the specified writes, up to a taken place |
| `BackfillScript.Main.Backfill` | scripts/scheduling/backfill-bookings.ts:29-213 | the whole script for one organization is the specified run; without a status or a crew nothing happens |
| `QuickBooks.CommitRows` | src/modules/integrations/quickbooks/quickbooks.service.ts:155-198 | what the activation transaction does to each connection row, whichever holder of the realm it finds |
| `QuickBooks.CommitEffect` | src/modules/integrations/quickbooks/quickbooks.service.ts:155-198 | the row becomes the organization's one active connection and the realm's one holder; other organizations' rows are untouched |
| `QuickBooks.StepKeepsInv` | src/modules/integrations/quickbooks/quickbooks.service.ts:28-198 | every call, split callbacks included, keeps the connection invariant |
| `QuickBooks.RunKeepsInv` | src/modules/integrations/quickbooks/quickbooks.service.ts:28-198 | over every run: one active connection per organization, active exactly when the status is ACTIVE, then with a realm and no pending state; one holder per realm and organization |
| `QuickBooks.StepUses` | src/modules/integrations/quickbooks/quickbooks.service.ts:120-197 | only an acceptance uses a state up, and only a stale commit accepts one that is used up |
| `QuickBooks.AcceptedOnceIff` | src/modules/integrations/quickbooks/quickbooks.service.ts:120-197 | a run accepts a state at most once exactly when each of its commits still finds the state on its row |
| `QuickBooks.AtomicAcceptsOnce` | src/modules/integrations/quickbooks/quickbooks.service.ts:112-204 | atomic callbacks accept each state at most once |
| `QuickBooks.AcceptedExactlyWhen` | src/modules/integrations/quickbooks/quickbooks.service.ts:112-146 | after any run a callback is accepted exactly when its state was handed out, not accepted before and not past ten minutes, the key is set and the exchange succeeds; it is refused for the first of these that fails and changes nothing, and a failed exchange can be tried again |
| `QuickBooks.AcceptanceConnects` | src/modules/integrations/quickbooks/quickbooks.service.ts:155-198 | an accepted callback leaves the row its state was handed out with as the organization's one active connection and the realm's one holder |
| `QuickBooks.ConnectHandsOut` | src/modules/integrations/quickbooks/quickbooks.service.ts:19-53 | a connect call hands its state out on a new pending row of the organization, for ten minutes, or changes nothing |
| `QuickBooks.SplitCallbackAcceptsTwice` | src/modules/integrations/quickbooks/quickbooks.service.ts:120-197 | two callbacks that both read before either commits are both accepted |
| `QuickBooks.Service.CreateConnectUrl` | src/modules/integrations/quickbooks/quickbooks.service.ts:19-53 | adds a pending row that carries the fresh state for ten minutes, and touches no other |
| `QuickBooks.Service.FindState` | src/modules/integrations/quickbooks/quickbooks.service.ts:120-134 | finds exactly an unexpired row that carries the state |
| `QuickBooks.Service.CommitConnection` | src/modules/integrations/quickbooks/quickbooks.service.ts:155-198 | the three updates, whichever holder the first one finds, amount to the one transaction `QuickBooks.CommitEffect` is about |
| `QuickBooks.Service.HandleCallback` | src/modules/integrations/quickbooks/quickbooks.service.ts:112-204 | an unknown or expired state, a missing key or a failed exchange change nothing, anything else is the activation; the invariant is kept; which it is: `QuickBooks.AcceptedExactlyWhen` |
| `Invoices.EnsureExactly` | src/modules/invoices/invoices.service.ts:100-125 | the unique-count check passes exactly when every id exists and belongs to the customer, and reports a missing one first |
| `Invoices.CreatedExactlyWhen` | src/modules/invoices/invoices.service.ts:186-207 | an invoice is created exactly for an existing customer and pairwise different work orders of that customer |
| `Invoices.WrittenKeeps` | src/modules/invoices/invoices.service.ts:209-358 | a write brings in only its own line and links, and never goes back to DRAFT |
| `InvoiceContent.WrittenTells` | src/modules/invoices/invoices.service.ts:209-318 | one write changes exactly the one line or the links its answer names: given fields are set, all else is as it was, and a new line has quantity 1 when none is given |
| `InvoiceContent.ContentIsHistory` | src/modules/invoices/invoices.service.ts:186-318 | over every run, interleaved or not, each line and each link of an invoice is what the edits answered for it, read in order, amount to |
| `InvoiceContent.EditIsAnswered` | src/modules/invoices/invoices.service.ts:209-358 | exactly how every edit is answered; a refused one changes no invoice, none changes another, content edits leave customer, status and dates, and a status edit sets the status and its own date |
| `InvoiceContent.CreateIsAnswered` | src/modules/invoices/invoices.service.ts:186-207 | exactly how a creation is answered; the new invoice is a draft of the customer without dates |
| `Invoices.StepKeepsLinks` | src/modules/invoices/invoices.service.ts:186-358 | every step, however late its write, keeps: linked work orders belong to the invoice's customer |
| `Invoices.RunKeepsLinks` | src/modules/invoices/invoices.service.ts:186-358 | the same over every interleaved run, and no line belongs to two invoices |
| `Invoices.WrittenChangesIff` | src/modules/invoices/invoices.service.ts:209-318 | exactly which writes change lines or links |
| `Invoices.StepFreezesIff` | src/modules/invoices/invoices.service.ts:94-98 | a step leaves issued invoices' lines and links alone exactly when it is not a late write |
| `Invoices.FrozenIff` | src/modules/invoices/invoices.service.ts:94-98 | exactly which interleaved runs keep issued invoices frozen: those without a late write |
| `Invoices.FreshRunsFreeze` | src/modules/invoices/invoices.service.ts:209-318 | lines and links never change once the status has left DRAFT, over all runs of atomic calls |
| `Invoices.WrittenStampedIff` | src/modules/invoices/invoices.service.ts:339-355 | a status written with an instant leaves the timestamps in order exactly when it follows or repeats the status it meets and, for a payment or voiding, the instant is not before the issue date |
| `Invoices.StepPatternsIff` | src/modules/invoices/invoices.service.ts:339-349 | a step leaves each status its timestamps exactly when no late status write meets a status it neither follows nor repeats |
| `Invoices.StepStampsIff` | src/modules/invoices/invoices.service.ts:339-355 | and in order as well exactly when, besides, it does not write a payment or voiding whose instant was read before the issue date it meets |
| `Invoices.PatternedIff` | src/modules/invoices/invoices.service.ts:339-349 | exactly which interleaved runs keep the null pattern of the timestamps after every step |
| `Invoices.StampedIff` | src/modules/invoices/invoices.service.ts:339-355 | exactly which interleaved runs keep the null pattern and the order of the timestamps after every step |
| `Invoices.FreshRunsKeepPattern` | src/modules/invoices/invoices.service.ts:320-358 | runs whose writes are fresh keep the pattern; runs of atomic calls keep the order too |
| `Invoices.VoidedBeforeIssued` | src/modules/invoices/invoices.service.ts:332-355 | every write fresh, and the order is lost: a void that read the clock, an issue, then the void row written |
| `Invoices.StepFollowsIff` | src/modules/invoices/invoices.service.ts:320-337 | a status change follows the transition map exactly when its write is fresh |
| `Invoices.MovesFollowMapIff` | src/modules/invoices/invoices.service.ts:320-337 | exactly which interleaved runs change statuses only along the map: those whose status writes are fresh |
| `Invoices.AtMostTwoTransitions` | src/modules/invoices/invoices.service.ts:320-358 | at most two transitions per invoice in every run whose status writes are fresh; `Invoices.LateVoid` makes three |
| `Invoices.SettledIsFinal` | src/modules/invoices/invoices.service.ts:320-358 | nothing about a paid or void invoice changes in a run without stale status writes and late content writes |
| `Invoices.FreshRunIsSerial` | src/modules/invoices/invoices.service.ts:209-358 | an interleaved run whose writes are fresh leaves what its calls leave one after the other, up to the values of the timestamps, and those too when no status write stamps an earlier instant |
| `Invoices.LateLine` | src/modules/invoices/invoices.service.ts:249-265 | a line checked in DRAFT and written after issuing is added to the issued invoice |
| `Invoices.LateVoid` | src/modules/invoices/invoices.service.ts:332-355 | a void checked in DRAFT and written after payment leaves a void invoice with a payment date, changed three times |
| `Invoices.Service.EnsureWorkOrdersForCustomer` | src/modules/invoices/invoices.service.ts:100-125 | answers exactly whether all ids are the customer's work orders |
| `Invoices.Service.CreateInvoice` | src/modules/invoices/invoices.service.ts:186-207 | creates a draft exactly when `Invoices.CreatedExactlyWhen` says, with numbered lines and its links, else changes nothing |
| `Invoices.Service.AddInvoiceWorkOrders` | src/modules/invoices/invoices.service.ts:209-228 | only on a draft and only for the customer's work orders; repeated and linked ids are skipped |
| `Invoices.Service.RemoveInvoiceWorkOrder` | src/modules/invoices/invoices.service.ts:230-247 | only on a draft; removes exactly that link and reports one that was not there |
| `Invoices.Service.CreateInvoiceLine` | src/modules/invoices/invoices.service.ts:249-265 | only on a draft; adds one line under a fresh id, quantity 1 unless given |
| `Invoices.Service.UpdateInvoiceLine` | src/modules/invoices/invoices.service.ts:267-303 | only on a draft; changes exactly the given fields of that line, a null price included |
| `Invoices.Service.DeleteInvoiceLine` | src/modules/invoices/invoices.service.ts:305-318 | only on a draft; removes exactly that line (`InvoiceContent.WrittenTells`) and reports one that was not there |
| `Invoices.Service.UpdateInvoiceStatus` | src/modules/invoices/invoices.service.ts:327-358 | moves along the transition map only, and stamps exactly the matching time |
| `Bookings.ResolveAnswers` | src/modules/scheduling/bookings.service.ts:56-83 | exactly which status is chosen: the one asked for, else a first active default, else a first active one; and exactly which errors |
| `Bookings.DefaultIsDetermined` | src/modules/scheduling/bookings.service.ts:67-73 | with at most one default the choice does not depend on the database |
| `Bookings.StepKeepsStatuses` | src/modules/scheduling/statuses.service.ts:51-145 | each call keeps at most one default and unique names |
| `Bookings.MadeDefaultIsOnly` | src/modules/scheduling/statuses.service.ts:54-59 | making a status the default leaves it the only one, whatever there was |
| `Bookings.RunKeepsStatuses` | src/modules/scheduling/statuses.service.ts:51-145 | at most one default over every run |
| `Bookings.StepKeepsLogIff` | src/modules/scheduling/bookings.service.ts:183-254 | exactly the backfill writes of another status put the event log out of step; of the other steps exactly a repeating commit logs a status twice |
| `Bookings.LogIsFaithfulIff` | src/modules/scheduling/bookings.service.ts:183-254 | exactly which runs, split changes and backfill writes included, keep a booking's status equal to the replay of its events; and of those, which never log the status before again |
| `Bookings.ServicesNeverOverwrite` | src/modules/scheduling/bookings.service.ts:148-254 | runs of the services alone all do |
| `Bookings.BackfillBreaksTheLog` | scripts/scheduling/backfill-bookings.ts:105-110 | a booking changed by a member and put back by the backfill: its events still name the old status, and the next change logs it again |
| `Bookings.AtomicChangesNeverRepeat` | src/modules/scheduling/bookings.service.ts:200-216 | atomic changes never log a repeat |
| `Bookings.DoubleChangeRepeats` | src/modules/scheduling/bookings.service.ts:189-254 | two changes compared before either writes log one status twice |
| `Bookings.RunKeepsRefs` | src/modules/scheduling/bookings.service.ts:85-254 | over every run bookings and events name existing rows and a work order has at most one booking |
| `Bookings.ChangeIsReadThenCommit` | src/modules/scheduling/bookings.service.ts:189-254 | the atomic change is its comparison followed by its transaction |
| `BookingHistory.BookingIsHistory` | src/modules/scheduling/bookings.service.ts:85-181 | over every run a booking has the work order it was made with and the crew, start and end last given for it |
| `BookingHistory.StatusIsHistory` | src/modules/scheduling/statuses.service.ts:51-145 | over every run a status has the fields last given, absent ones at their defaults, and stops being the default when another becomes it |
| `BookingHistory.CreateIsAnswered` | src/modules/scheduling/bookings.service.ts:85-146 | exactly how a booking is refused, in order, and that a new one has the status asked for, or the first active default or active status |
| `BookingHistory.ChangeIsAnswered` | src/modules/scheduling/bookings.service.ts:183-254 | exactly how a change of status is answered: the status resolved and one event with it, or nothing when the booking has it already |
| `BookingHistory.RefusedExactly` | src/modules/scheduling/bookings.service.ts:148-181 | exactly how updates of bookings and saves of statuses are refused, and that a refused one changes nothing |
| `Bookings.Service.CreateBookingStatus` | src/modules/scheduling/statuses.service.ts:51-90 | a taken name leaves the cleared defaults as they were; a new default becomes the only one |
| `Bookings.Service.UpdateBookingStatus` | src/modules/scheduling/statuses.service.ts:92-145 | changes exactly the given fields; becoming the default takes it from every other status; a taken name leaves all as it was |
| `Bookings.Service.ResolveStatus` | src/modules/scheduling/bookings.service.ts:56-83 | the choice `Bookings.ResolveAnswers` describes, on every table and request |
| `Bookings.Service.CreateBooking` | src/modules/scheduling/bookings.service.ts:85-146 | crew, work order, status and one booking per work order, refused in this order; the booking starts with the resolved status |
| `Bookings.Service.UpdateBooking` | src/modules/scheduling/bookings.service.ts:148-181 | changes exactly the given fields, never the status |
| `Bookings.Service.ChangeBookingStatus` | src/modules/scheduling/bookings.service.ts:183-254 | writes the status and one event together; neither when the status is the same already |
| `Slugs.CollapseJoins` | src/modules/organizations/organizations.service.ts:21 | collapsing gives the words joined by single dashes, and perhaps a last dash |
| `Slugs.SlugIsJoinedWords` | src/modules/organizations/organizations.service.ts:17-25 | a slug is the lower-cased name's maximal runs of a-z and 0-9, in order, joined by one dash each; "org" when there are none |
| `Slugs.SlugBaseHasForm` | src/modules/organizations/organizations.service.ts:17-25 | for every name the result is not empty, a-z, 0-9 and '-' only, with no leading, trailing or doubled '-' |
| `Slugs.FixedExactlyWhenSlug` | src/modules/organizations/organizations.service.ts:17-25 | the strings it leaves alone are exactly those of that form |
| `Slugs.Idempotent` | src/modules/organizations/organizations.service.ts:17-25 | normalizing again changes nothing |
| `Slugs.RetryHasForm` | src/modules/organizations/organizations.service.ts:60 | the retry slug has the form too |
| `Slugs.Organizations.CreateOrganization` | src/modules/organizations/organizations.service.ts:56-104 | takes the first of the three candidates that is free, and fails exactly when all three are taken |

## Left out

- Organizations other than one: every query is scoped to one organization, and the models (but QuickBooks) have one.
- Express routes, controllers, request schemas, OpenAPI, metrics, logging, rate limiting, RBAC tables, configuration parsing: plumbing without run-level properties.
- JWT, argon2, AES-GCM, HMAC and SHA-256: a signature is membership in the set of signed tokens, a hash is the value itself.
- The JWT library's reading of the refresh lifetime setting, and what JavaScript's `Number` accepts, are parameters; amounts are exact numbers, not floating point.
- `normalizeEmail`, `sanitizeIp` and the case-insensitive lookup of `requestPasswordReset`: emails and addresses enter normalized.
- `listSessions`, `createRoute`, `listBookingStatuses`, `getInvoice`, the lookup of a webhook's connection and the plain create, update and list calls of the other modules: they would only add easy members.
- AuthService.Service.Register: the call is atomic; two interleaved registrations of one email end in the unique key of the user table.
- AuthService.Service.VerifyEmail: the call is atomic; two interleaved verifications with one token both verify the same user.
- AuthService.Service.ResetPassword: the class runs it without interruption; `ResetRace` has its halves.
- AuthService.Service.Login: the class runs it without interruption; `LockoutRace` has its statements.
- Accounts.ResetIsFinal: speaks of sessions that exist at the reset; a login that is past its password check then opens its session afterwards.
- Accounts.GuessesAreBounded: speaks of whole logins; overlapping ones are in `LockoutRace`.
- LockoutRace.FreshBound: a guess counts as evaluated when its failure is looked up; one whose lookup has not come by the end of the stretch is not counted.
- SyncWorker.Scheduler.OnTimer: the class runs one call at a time, so a tick meets a run in progress only as the flag it finds set.
- A database statement either happens or fails without effect; crashes between statements are modelled only as runs that stop, and a job left in PROCESSING by a crash stays there, as in the code.
- The order and the batch size of the worker's candidate query: any list of due jobs is allowed, which covers the real one.
- A time zone named in an RRULE string is kept, as in the source, but what the library makes of it is not modelled.
- RRule and Luxon internals, time zones and daylight saving: a pattern is known through `after`, the least occurrence strictly later than a time (sets of occurrences as in section 3.3.10 of RFC 5545).
- Gaps in materialized occurrences across a change of the rule: the code does not avoid them.
- A lasting match between a booking's crew and its route's crew: `updateBooking` changes crews after routing, and the theorems claim none.
- Routes.PositionsStayInRangeIff: for the code without the unique (route, position) index; with it `Routes.PositionsStayContiguousIff` is the stronger statement.
- Positions of routes dated other than a UTC midnight in the backfill model: its routes are the ones its upsert key names.
- The conversion between UTC days and calendar dates: a day is its number since the epoch.
- Resource requirements of bookings, due dates and memos of invoices, descriptions of statuses, scopes and tokens of connections: written once or passed through.
- Customers and work orders are given and keep their owner; deleting one cascades in the database and is not modelled.
- Accounts.ReachableAccounts: issuing a token, which uses up the old ones and creates the new one, is one atomic step; at the database's default isolation two requests interleaved could leave two unused tokens. So it is in `Accounts.RunKeepsInv` and `ResetRace.RunKeepsInv`.
- Bookings.RunKeepsStatuses: the status transactions are atomic; at the database's default isolation two of them interleaved could leave two defaults.
- QuickBooks.RunKeepsInv: the activation transaction is atomic; at the database's default isolation two of them for one organization could leave two active rows.
- `toLowerCase` and the white space `trim` removes: parameters, of which only their effect on a-z, 0-9 and '-' is used.
- Organization rows, memberships and roles written together with a slug: only the unique slug column is modelled.
