# Business Suite: verified models of its stateful services

Dafny models of the parts of the Business Suite backend and frontend whose correctness spans
several operations, with proofs over whole runs. Verify everything with
`dafny verify dfyconfig.toml`.

| files | component |
|---|---|
| `Sessions`, `AuthService`, `SessionProofs`, `SessionOutcomes`, `AccountOutcomes`, `EnrolmentProofs`, `RecoveryCodes` | login, refresh-token rotation with replay tolerance and family ban, revocation, two-factor enrolment, each call one step |
| `CallPlans`, `SplitCalls`, `SplitProofs`, `Stragglers`, `LoginStragglers`, `CodeRaces`, `EnrolmentRaces`, `ResetRaces` | the same calls as the separate readings and writings they are, in every interleaving |
| `Tab`, `TabProofs`, `TabRetries`, `ManyTabs`, `TabForks` | one browser tab with its mutex, transparent refresh and single retry, composed with the server; overlapping refreshes of many tabs or successive pages without a common mutex |
| `ProductImages`, `ImageProofs`, `ImageLeaks` | image replacement as a protocol over files and rows with concurrent uploads and failing deletions |
| `Weekdays`, `Leaves`, `LeaveService`, `LeaveProofs`, `LeaveOutcomes`, `AttendanceRows` | leave requests and the attendance rows an approval stamps |
| `Stock`, `StockProofs` | stock levels and the movement ledger |
| `Decimal`, `CustomerCodes`, `Payments`, `PaymentOutcomes`, `CheckoutNumbers` | generated codes and numbers, order status derived from payments and checkouts |
| `AttendanceService` | self-service check-in and check-out |
| `Pagination`, `TableUrl`, `Audit` | paging, table state in URLs, the audit sanitiser |
| `Prelude` | options, results, error classes, white space |

## How the models are built

- Each service is given twice: as functions from the tables to the new tables and an outcome,
  and as a class whose methods read and update fields in the program's order. Every method is
  proved equal to its function; the methods of authentication, leaves, payments and attendance
  are also proved to keep the invariant that the theorems about runs rest on.
- A database transaction is one step that applies or leaves the tables unchanged. The
  authentication calls that read outside a transaction are modelled twice: as one step each,
  and as a reading followed by one or two writings between which any other call may read,
  write or stop. Image uploads are modelled as their separate steps only.
- Token identifiers, families, file names and row ids are fresh names taken from counters.
  Refresh cookies are absent, junk, or signed tokens; the server theorems hold for every token
  content, signed or not. SHA-256 is injective, bcrypt checking is equality, and the verdict
  of the one-time-code library, the readability of a stored secret and the verdict of the
  image sniffer are parameters. Time is integer milliseconds, dates are day numbers, money is
  cents, work hours are hundredths.
- In the browser model every continuation after an `await`, every server-side database
  operation and every arriving response is a step of its own, the server may fail between any
  two of its operations, the page may be left or loaded anew at any moment while the server
  carries on with its refresh, and any other client reads and writes in between; other clients
  never present a token handed to this tab.

## Findings: where the code does not do what it says

- `backend/src/modules/auth/services.ts:300-445`: reading and writing in `refresh` are separate
  operations. A rotation that marks a row another one has marked since it was read gives the
  family one more live row, for good (`FamilyIsChainExactlyWithoutStaleMark`,
  `LiveRowsAreConserved`; the input is `BothReadingFirstForks`).
- `backend/src/modules/auth/services.ts:300-445`, `589-605`: a refresh that has read before a
  password reset, a password change, a ban or a deactivation and writes after it leaves a live
  cookie in the evicted family; after a reset it can be refreshed for ever
  (`StraddlingRefreshOutlivesEviction`). This is the only way the family gains a row
  (`ShutTargetGainsRowExactlyByStraggler`). A login that has checked the old password before a
  reset starts a new session after it (`LoginOutlivesReset`,
  `SessionStartsWithoutPasswordExactlyByStraggler`).
- `backend/src/modules/auth/services.ts:741-746`: the comment says that two concurrent requests
  cannot both spend the same recovery code. They can (`SameCodeStartsTwoSessions`), and a list
  computed from an outdated one also brings other spent codes back
  (`CodesAreSpentOnceExactlyWithoutStaleStore`), even those of an earlier enrolment
  (`OldCodesReturnAfterEnrolment`, `StoredCodesAreIssuedExactlyUnlessOlderStore`).
- `backend/src/modules/auth/services.ts:813-844`: two requests to switch two-factor login on,
  with a switching off between their writings, leave it on without a secret: the user is locked
  out (`SecondEnablingLocksOut`, `EnrolmentHoldsExactlyWithoutBlindWrite`).
- `backend/src/modules/auth/services.ts:563-605`: a reset link works once for each request that
  reads it before the first one commits (`TokenWorksOnceExactlyWithoutStaleReset`,
  `BothReadingFirstResetTwice`).
- `backend/src/modules/auth/services.ts:330-375`: the tolerated replay does not look at
  revocation, expiry of the row or account status: a revoked or disabled account gets access
  tokens exactly within five seconds after the row was used
  (`DisabledUserIsServedExactlyWithinTolerance`, `DeadRefreshMintsExactlyFreshReplays`).
- `backend/src/modules/auth/controllers.ts:97-98`: a tolerated replay overwrites the jar with a
  placeholder, so tabs that refresh together keep the session exactly if the last response to
  arrive is a rotation, its successor is not lost and no ban reaches it
  (`SessionSurvivesExactlyIfLastResponseRotated`).
- `frontend/src/lib/api/baseQueryWithReauth.ts:218-221`: a retry that is refused again leaves
  the page although another caller's refresh may be in flight. The next page's refresh is then
  a replay exactly if the abandoned one has marked the cookie's row before it reads
  (`RefreshReplaysExactlyIfOrphanMarked`); if it reads first, both rotate and the family forks
  (`FamilyForksExactlyIfCookieRotatedTwice`). A lost response and a second tab do the same.
- `backend/src/modules/profile/controllers.ts:31` announces that sessions on other devices are
  revoked; `changeOwnPassword` revokes the current one too (`EvictionKills`).
- `backend/src/modules/inventory/products/services.ts:267-274`: if deleting the old file throws
  after the commit, the handler deletes the new file the row names
  (`UrlDanglesExactlyIfItsUploadWasUndone`).
- `backend/src/modules/inventory/products/services.ts:238-268`: two uploads of one product that
  read the same row leave a file on disk that no row names
  (`EveryFileIsNamedExactlyWithoutLeak`).
- `backend/src/modules/inventory/stockMovements/services.ts:62`: a transfer out of a warehouse
  without a row succeeds and creates stock (`TransferConservesExactlyWithSourceRow`).
- `backend/src/modules/crm/customers/services.ts:64-74`: creation works ten thousand times and
  then never again (`TenThousandCustomers`).
- `backend/src/modules/sales/payments/services.ts:106-117`: payments taken at checkout do not
  name the order, so the first payment recorded for it can move its status back
  (`StatusFallsExactlyAfterCheckout`).
- `backend/src/modules/sales/orders/services.ts:397-418`: a checkout paid by two means always
  fails, because both payments get the same number (`SplitPaymentNeverSucceeds`).
- `backend/src/modules/sales/orders/services.ts:64-73`: the number generator orders numbers as
  strings. With PAY-9999 and PAY-10000 stored it prints PAY-10000 again, and so on at every
  number of all nines; from then on no checkout with a payment succeeds
  (`CheckoutFailsExactlyWhenSplitOrAtRollover`, `RolloverIsForGood`).
- `backend/src/middleware/audit.ts:45-49`: dates and database decimals never reach their
  conversion to text, because the earlier pass has already turned them into plain objects
  (`LeafIsKeptExactlyUnlessDateOrDecimal`).

## Model

| member | source | states |
|---|---|---|
| SessionProofs.FamiliesAreChains | backend/src/modules/auth/services.ts:147-445 | over every run of the calls as atomic steps, each session family has exactly one unused row, its newest, and only that row can ever be rotated |
| SessionProofs.StepKeepsInv | backend/src/modules/auth/services.ts:147-884 | every call keeps: families are one user's chain, used rows have a past use time, disabled users have no unrevoked row, two-factor on implies a stored secret |
| SessionProofs.StepShape | backend/src/modules/auth/services.ts:173-183 | a call can only revoke rows, start a family of its own for an active user, or, if it is a refresh, rotate a live row |
| SessionProofs.DisabledUsersHaveNoSession | backend/src/modules/users/services.ts:165-171 | with calls taken as atomic steps, over every run each row of a disabled user is revoked, and no later run, even after re-enabling, lets it be rotated |
| SessionProofs.EnrolmentStaysConsistent | backend/src/modules/auth/services.ts:772-883 | over every run of atomic calls two-factor login is on only with a stored secret, and recovery codes exist only while it is on |
| SessionProofs.EvictionKills | backend/src/modules/auth/services.ts:589-605 | password reset, both password changes, deactivation and a ban leave every row of the family revoked and none used later |
| SessionProofs.DeadFamiliesStayDead | backend/src/modules/auth/services.ts:287-463 | with calls taken as atomic steps, a dead family never gets another row, and refresh mints for it exactly on unexpired cookies whose row was used at most 5000 ms before; so never later than 5000 ms after its death |
| SessionProofs.DeadRefreshMintsExactlyFreshReplays | backend/src/modules/auth/services.ts:330-375 | on one set of tables: a row of a dead family gets an access token exactly as a fresh replay, and then nothing is written |
| SessionProofs.DisabledUserIsServedExactlyWithinTolerance | backend/src/modules/auth/services.ts:330-375 | refresh, deactivation, the same cookie again: the disabled user gets an access token exactly within 5000 ms of the first refresh |
| SessionProofs.EvictedFamiliesNeverComeBack | backend/src/modules/users/services.ts:165-171 | with calls taken as atomic steps: after an eviction at time T no run adds a row to a family of that time, and an access token is minted exactly on fresh replays, none after T + 5000 ms |
| SessionProofs.SessionsLastWhileRefreshed | backend/src/modules/auth/services.ts:406-462 | an undisturbed session lasts through any refreshes one after the other exactly if each comes within the token's life since the one before |
| SessionProofs.StartedSessionIsUnspent | backend/src/modules/auth/services.ts:154-192 | both ways of starting a session hand out a cookie whose row is live and matches it |
| SessionOutcomes.ReplayIsServedExactlyWithinTolerance | backend/src/modules/auth/services.ts:330-384 | an unexpired cookie of a used row gets an access token, and nothing is written, exactly if the user is known and at most 5000 ms have passed since its use; otherwise it is refused and every row of the family, and no other, is revoked at that moment |
| SessionOutcomes.UsedRowIsServedExactlyWithinTolerance | backend/src/modules/auth/services.ts:330-384 | the same of the tables of any run, where use time and user are always there |
| SessionOutcomes.CookieIsExchangedExactlyIfLive | backend/src/modules/auth/services.ts:300-445 | every other cookie is exchanged exactly if it is unexpired and its row unused, not revoked, not expired, its bearer's and of an active user; then that row is marked and the family gets one unspent row; else nothing is written, and only the account status is answered with Forbidden |
| SessionOutcomes.LateReplayEndsTheFamily | backend/src/modules/auth/services.ts:364-384 | after a replay later than 5000 ms, in every later run of atomic calls the family gets no row and none of its cookies is exchanged |
| SessionOutcomes.SessionStartsExactlyIfAuthenticated | backend/src/modules/auth/services.ts:230-270 | a call starts a session of a user exactly with the password of an active user who is not enrolled, or with the second step of an enrolled one by an accepted one-time code or a stored recovery code; the password of an enrolled one is exactly a challenge |
| SessionOutcomes.LoginRefusalsAreExact | backend/src/modules/auth/services.ts:706-761 | both steps refuse in exactly the other cases, with Forbidden exactly for a disabled account that showed the password or is enrolled |
| SessionOutcomes.EverySessionWasAuthenticated | backend/src/modules/auth/services.ts:147-192 | over every run of atomic calls each session family that began in it began with a call of its own that authenticated the owner of all its rows at that moment |
| SessionOutcomes.EnrolledUsersNeedTheSecondFactor | backend/src/modules/auth/services.ts:256-266 | over every run of atomic calls in which an enrolled user does not switch two-factor login off, a family of that user begins only with a completed second step |
| AccountOutcomes.LogoutEndsExactlyThatSession | backend/src/modules/auth/services.ts:470-482 | a logout with an unexpired cookie revokes its row at that moment; after any later run it is never exchanged, and every other cookie is answered as if nobody had logged out |
| AccountOutcomes.NewPasswordIsTheOnlyOne | backend/src/modules/auth/services.ts:589-605 | after a reset or either change a login is answered with the new password as before with the old one and refused with any other, no cookie of the user is exchanged, and logins and cookies of everybody else are answered as before |
| AccountOutcomes.ChangesAreAcceptedExactly | backend/src/modules/auth/services.ts:660-695 | both changes are accepted exactly with the current password and a different new one, by an active user or, on the profile route, any known one; every refusal with its error |
| AccountOutcomes.ResetLinkWorksExactlyOnceWithinFifteenMinutes | backend/src/modules/auth/services.ts:498-608 | whatever atomic calls come in between, the link sent to a known user sets that user's password exactly if no call has used it and at most fifteen minutes have passed |
| AccountOutcomes.UpdateDecidesWhoGetsIn | backend/src/modules/users/services.ts:114-177 | an update sets what it names and keeps the rest; the right password is answered with Forbidden exactly if the account is then inactive; nobody else's account or cookies are touched |
| AccountOutcomes.EnrolmentMakesThePrintedCodesWork | backend/src/modules/auth/services.ts:809-847 | enrolment succeeds exactly for a known user who is not enrolled and shows an accepted code of a stored readable secret; from then on the password is a challenge and exactly the printed codes, however typed, complete it without a one-time code |
| AccountOutcomes.SwitchingOffTakesThePassword | backend/src/modules/auth/services.ts:856-884 | switching off takes exactly the password; then the password alone starts a session and no second step works |
| AccountOutcomes.SetupStoresTheSecret | backend/src/modules/auth/services.ts:772-800 | setup stores the secret, exactly for a known user who is not enrolled, and changes nothing else |
| AccountOutcomes.SecondStepSpendsExactlyTheCode | backend/src/modules/auth/services.ts:706-761 | a completed second step takes exactly the recovery code it used from the list, and none with a one-time code |
| CallPlans.UninterruptedIsAtomic | backend/src/modules/auth/services.ts:287-463 | a call whose reading and writings are not interrupted does what the atomic call does |
| SplitProofs.LiveRowsAreConserved | backend/src/modules/auth/services.ts:300-445 | over every interleaving the live rows of a family, with those half rotated, grow by one when it starts and by one at each mark of an already used row, and never fall |
| SplitProofs.FamilyIsChainExactlyWithoutStaleMark | backend/src/modules/auth/services.ts:300-445 | over every interleaving, once no rotation is half written a family is a chain exactly when no row of it was marked after another call had marked it |
| SplitProofs.RotationKeepsChainsExactlyIfUnused | backend/src/modules/auth/services.ts:406-445 | writing a rotation decided on any earlier tables keeps families chains exactly if the presented row is still unused |
| SplitProofs.AtomicTablesAreOrderly | backend/src/modules/auth/services.ts:147-445 | tables left by atomic calls meet the conditions the interleaved results start from |
| SplitProofs.BothReadingFirstForks | backend/src/modules/auth/services.ts:300-445 | the input: two requests with one cookie that both read first leave two live rows in the family |
| Stragglers.ShutTargetGainsRowExactlyByStraggler | backend/src/modules/auth/services.ts:300-445 | over every interleaving, an evicted family or a disabled user gains a row exactly if a call that had read before goes on to create it |
| Stragglers.EvictionShuts | backend/src/modules/auth/services.ts:589-605 | committing a reset, a password change, a deactivation or a ban revokes every row of the families concerned, whatever is under way |
| Stragglers.ShutFamilyMintsExactlyFreshReplays | backend/src/modules/auth/services.ts:330-404 | whatever is under way, a cookie of an evicted family never rotates and mints exactly as a fresh replay |
| Stragglers.StraddlingRefreshOutlivesEviction | backend/src/modules/auth/services.ts:406-445 | the input: read, eviction by password, write; the new cookie of the evicted family is live and lasts exactly as long as it is refreshed in time |
| LoginStragglers.SessionStartsWithoutPasswordExactlyByStraggler | backend/src/modules/auth/services.ts:230-270 | over every interleaving in which nobody presents the current password or a challenge, a session of the user starts exactly if a call let in before goes on to start it |
| LoginStragglers.LoginOutlivesReset | backend/src/modules/auth/services.ts:230-270 | the input: a login reads the old password, a reset commits, the login's session is live |
| CodeRaces.CodesAreSpentOnceExactlyWithoutStaleStore | backend/src/modules/auth/services.ts:719-750 | between switching on and off, over every interleaving from a moment when all waiting verifications have read the stored list: each recovery code is spent at most once and then gone, at every moment, exactly when no verification overwrites a list other than the one it read; two requests with one code included |
| CodeRaces.StaleStoresBoundReuse | backend/src/modules/auth/services.ts:719-750 | over every interleaving, switching on and off included: a code is spent, or stays, at most once for each time it is issued and once more for each such overwriting |
| CodeRaces.StoredCodesAreIssuedExactlyUnlessOlderStore | backend/src/modules/auth/services.ts:737-843 | from an enrolment to the next, switching off included: the stored codes are among the issued ones, at every moment, exactly unless a verification that read before the enrolment stores another one after it |
| CodeRaces.OldCodesReturnAfterEnrolment | backend/src/modules/auth/services.ts:737-884 | the input: a verification reads, two-factor login is switched off and on again, the verification stores; the old codes are back and the new ones gone |
| CodeRaces.CodeIsAcceptedLaterExactlyIfItCanReturn | backend/src/modules/auth/services.ts:737-750 | some continuation without a new enrolment accepts a code exactly if it is stored or a waiting verification of another code has read it |
| CodeRaces.SameCodeStartsTwoSessions | backend/src/modules/auth/services.ts:741-746 | the input: two requests with one code that both read first start two sessions |
| ResetRaces.TokenWorksOnceExactlyWithoutStaleReset | backend/src/modules/auth/services.ts:558-608 | over every interleaving the uses of a reset token beyond its first are exactly the commits that find it spent |
| ResetRaces.BothReadingFirstResetTwice | backend/src/modules/auth/services.ts:563-605 | the input: two requests with one link that both read first both set a password |
| EnrolmentRaces.EnrolmentHoldsExactlyWithoutBlindWrite | backend/src/modules/auth/services.ts:737-884 | over every interleaving two-factor login is on only with a secret and codes are stored only while it is on, at every moment, exactly unless a call switches on a user whose secret is gone or stores codes of one who is off |
| EnrolmentRaces.SecondEnablingLocksOut | backend/src/modules/auth/services.ts:809-884 | the input: two enablings around a disabling leave the user enabled without a secret, and no login succeeds |
| EnrolmentProofs.CodesAreSpentOnce | backend/src/modules/auth/services.ts:737-750 | until the next enrolment no recovery code is accepted twice and accepted plus remaining codes never exceed what there was |
| EnrolmentProofs.EnrolmentIssuesEachCodeOnce | backend/src/modules/auth/services.ts:809-847 | counted from an enrolment: accepted codes are printed ones, and with the remaining ones no more than were issued |
| RecoveryCodes.TypedCodeHashesAsPrinted | backend/src/utils/totp.ts:73-91 | a printed code typed with or without dashes, spaces or in lower case normalises to its 20 hex characters and has the stored digest |
| RecoveryCodes.PrintedCodesAreDistinct | backend/src/utils/totp.ts:73-91 | codes from different random bytes have different digests |
| RecoveryCodes.PrintedInFours | backend/src/utils/totp.ts:73-83 | a printed code reads as four groups of five characters joined with dashes |
| AuthService.Service.Login | backend/src/modules/auth/services.ts:230-270 | Unauthorized or Forbidden, and for the right password of an active user the challenge exactly if enrolled, else a new unspent session |
| AuthService.Service.VerifyTwoFactorLogin | backend/src/modules/auth/services.ts:706-761 | second step with one-time code or recovery code; a recovery code is consumed |
| AuthService.Service.Refresh | backend/src/modules/auth/services.ts:287-463 | replay tolerance exactly up to 5000 ms, family ban after it, every rejection and the rotation, as one reading and one writing; a rotation leaves the family's head |
| AuthService.Service.Logout | backend/src/modules/auth/services.ts:470-482 | revokes the presented row only; anything else is a no-op |
| AuthService.Service.ResetPassword | backend/src/modules/auth/services.ts:558-608 | one-shot token, new password, every session revoked, or no change; afterwards no row of the user is live |
| AuthService.Service.ChangePassword | backend/src/modules/auth/services.ts:660-695 | the four refusals in order, or new password and every session revoked |
| AuthService.Service.ChangeOwnPassword | backend/src/modules/users/services.ts:215-253 | the profile route to the same change |
| AuthService.Service.UpdateUser | backend/src/modules/users/services.ts:114-177 | status and must-change flag; a deactivation revokes the user's sessions; a disabled user has no live row afterwards, whatever was changed |
| AuthService.Service.EnableTwoFactor | backend/src/modules/auth/services.ts:809-847 | enrolment only with a stored readable secret and a valid code; stores the digests of the new codes |
| AuthService.Service.DisableTwoFactor | backend/src/modules/auth/services.ts:856-884 | needs the password; wipes secret and codes |
| TabProofs.TabNeverReplays | frontend/src/lib/api/baseQueryWithReauth.ts:146-187 | in every interleaving, with failing servers and page loads while no refresh is in flight, at most one refresh is in flight, while none is the jar is empty or holds a token whose row is unused, and the reuse branch is never reached |
| TabProofs.RefreshReplaysExactlyIfOrphanMarked | frontend/src/lib/api/baseQueryWithReauth.ts:138-161 | in every interleaving, with page loads at any moment: whenever the server reads for a refresh of the page, it is a replay exactly if an abandoned refresh that presented the same cookie has marked its row by then |
| TabProofs.ActionKeepsInv | frontend/src/lib/api/baseQueryWithReauth.ts:203-223 | every continuation, server operation, failure, response, page load and foreign operation keeps mutual exclusion, that a used token in the jar or just sent was marked by a known refresh, and that no token is on its way twice |
| TabProofs.CallersAreBounded | frontend/src/lib/api/baseQueryWithReauth.ts:203-223 | no refresh loop: a request is sent at most twice and refreshes at most once, whatever the server answers |
| TabRetries.RequestIsRetriedExactlyIfRenewed | frontend/src/lib/api/baseQueryWithReauth.ts:203-223 | over every run in which the page stays, a finished caller has sent its request twice exactly if its first attempt was answered 401 by an endpoint for which that means an expired session and there was a session when the refresh it made or followed was over; a hydration never, anything else once |
| TabRetries.RenewedCallerSendsNext | frontend/src/lib/api/baseQueryWithReauth.ts:217-222 | while that holds and the second sending is still to come, the caller can only take its response, release the mutex and send; after those that sending is its one next step and possible |
| TabRetries.ResponseSignsInAndOut | backend/src/modules/auth/controllers.ts:33-146 | what an arriving response does to jar and store in terms of the outcome at the server: a started session signs in, a logout or accepted password change signs out, a refused retry signs out and keeps the jar, nothing else touches either |
| TabRetries.RefreshSignsInAndOut | frontend/src/lib/api/baseQueryWithReauth.ts:136-168 | a granted refresh puts its cookie into the jar and signs its user in, every other one empties the jar and signs out |
| TabRetries.RefreshMarksTheJarsRow | frontend/src/lib/api/baseQueryWithReauth.ts:146-160 | undisturbed, a caller that holds the mutex over a live jar presents the jar's cookie and within its life the server marks its row |
| TabRetries.MarkedRefreshRenewsTheJar | frontend/src/lib/api/baseQueryWithReauth.ts:154-187 | undisturbed, that refresh ends with the successor live in the jar, the user signed in, the mutex free and the request about to be sent again |
| TabRetries.LogoutRevokesTheJarsRow | backend/src/modules/auth/controllers.ts:106-113 | undisturbed, a logout revokes the row of the jar's cookie, empties the jar and signs out |
| TabProofs.SomeCallerCanMove | frontend/src/lib/api/baseQueryWithReauth.ts:146-187 | the mutex cannot deadlock the callers |
| ManyTabs.SessionSurvivesExactlyIfLastResponseRotated | backend/src/modules/auth/controllers.ts:94-104 | any number of tabs, lost responses, every interleaving: the session can go on exactly if the last response to reach the jar carried a token, no ban was written after its row, and no refresh that rotated it lost its response; no ban without a reading later than 5000 ms after the marking |
| ManyTabs.RefreshReplaysExactlyIfRotatedBefore | backend/src/modules/auth/services.ts:330-404 | in every such interleaving a refresh is a replay exactly if another one that presented the same cookie has marked its row before it reads |
| TabForks.FamilyForksExactlyIfCookieRotatedTwice | backend/src/modules/auth/services.ts:406-445 | in every such interleaving, once no rotation is half written, the family is a chain exactly if no cookie was rotated by two refreshes |
| ImageProofs.ImagesNeverDangle | backend/src/modules/inventory/products/services.ts:238-295 | under every interleaving of uploads, creations and deletions in which the deletions after a commit work, each image url names an existing file and no two products share one |
| ImageProofs.UrlDanglesExactlyIfItsUploadWasUndone | backend/src/modules/inventory/products/services.ts:250-274 | over every interleaving, failing deletions included, a url dangles exactly if the upload that gave it failed to delete the old file and then deleted the new one |
| ImageProofs.HandlerBreaksExactlyItsOwnCurrentRow | backend/src/modules/inventory/products/services.ts:270-274 | the handler after a commit breaks no other product's url, and its own exactly if the row still names the new file |
| ImageLeaks.EveryFileIsNamedExactlyWithoutLeak | backend/src/modules/inventory/products/services.ts:238-295 | with working deletions, once all uploads are over every file is some product's image exactly if no upload overwrote a url other than the one it had read and no product was deleted with its image |
| ImageLeaks.FailedDeletionCanUndoALeak | backend/src/modules/inventory/products/services.ts:267-274 | the input that shows the condition is about working deletions: a leak and a failed deletion after which every file is named |
| ProductImages.ImageService.UploadImage | backend/src/modules/inventory/products/services.ts:238-275 | one upload alone takes the protocol's steps: the row names a new file and the old one is gone, or nothing changed; and exactly when the url dangles |
| ProductImages.AloneDangles | backend/src/modules/inventory/products/services.ts:267-274 | one upload alone leaves a url without its file exactly if it committed, deleting the old file failed, and deleting the new one did not |
| ProductImages.ImageService.SaveImage | backend/src/lib/uploads.ts:77-90 | writes a file under a fresh name, or rejects and writes nothing |
| ProductImages.ImageService.DeleteImageByUrl | backend/src/lib/uploads.ts:96-105 | removes that file only, or fails; a missing url or file is no error |
| ProductImages.ImageService.Remove | backend/src/modules/inventory/products/services.ts:277-295 | removes the row only; the file stays |
| Weekdays.CountWeekdays | backend/src/modules/hrm/leaves/services.ts:61-71 | the loop terminates and counts the listed weekdays |
| Weekdays.GetWeekdaysInRange | backend/src/modules/hrm/leaves/services.ts:73-83 | the loop terminates and returns the list of weekdays |
| Weekdays.ListedIsExact | backend/src/modules/hrm/leaves/services.ts:73-83 | the list is strictly increasing and holds exactly the weekdays of the range |
| Weekdays.WeekendsAreSaturdayAndSunday | backend/src/modules/hrm/leaves/services.ts:56-59 | weekends are the days congruent to 3 and 4 January 1970, a Saturday and a Sunday |
| Weekdays.CountIsClosedForm | backend/src/modules/hrm/leaves/services.ts:61-71 | the count is five per full week plus a remainder fixed by the start day |
| LeaveProofs.ActiveLeavesShareNoDay | backend/src/modules/hrm/leaves/services.ts:85-117 | in every reachable state no two pending or approved leaves of one employee share a day |
| LeaveProofs.ApprovedLeavesStayStamped | backend/src/modules/hrm/leaves/services.ts:407-450 | in every reachable state each weekday of an approved leave has a LEAVE row with 4 hours if half-day, else 0 |
| LeaveProofs.ApprovalWritesItsWeekdays | backend/src/modules/hrm/leaves/services.ts:428-450 | approval rewrites exactly the leave's weekdays, keeping check-in times, and nothing else; their number is the stored day count except for half-day leaves over several or no weekdays |
| LeaveProofs.DayCountsAreExact | backend/src/modules/hrm/leaves/services.ts:287-290 | stored day counts are 1 for a half day, else the closed-form weekday count, and at least 1 |
| LeaveProofs.ApprovedLeavesAreFinal | backend/src/modules/hrm/leaves/services.ts:330-592 | no later call edits, changes the status of, or deletes an approved leave |
| LeaveProofs.StepKeepsInv | backend/src/modules/hrm/leaves/services.ts:242-604 | every call keeps the range order, day counts, disjointness and stamps |
| LeaveOutcomes.CreationIsAcceptedExactly | backend/src/modules/hrm/leaves/services.ts:242-321 | in every reachable state a creation is a conflict exactly if it passes the checks before and shares a day with another pending or approved leave of that same employee; it goes through exactly without one and with a day that counts; the stored row |
| LeaveOutcomes.NobodyElseFiles | backend/src/modules/hrm/leaves/services.ts:249-260 | a caller who may file for nobody named is refused, with Forbidden exactly for naming somebody else |
| LeaveOutcomes.OnlyOwnActiveLeavesMatter | backend/src/modules/hrm/leaves/services.ts:92-101 | the answers to creation and update depend on no leave of another employee and on no rejected or cancelled one |
| LeaveOutcomes.UpdateIsAcceptedExactly | backend/src/modules/hrm/leaves/services.ts:323-405 | the same for an update: a conflict exactly if it names a date, is otherwise admissible, and the new range shares a day with another active leave of that employee; the stored row |
| LeaveOutcomes.ClosingIsAcceptedExactly | backend/src/modules/hrm/leaves/services.ts:407-604 | only pending leaves are approved, rejected or cancelled, each of which sets that status and nothing else of any leave; only own ones are cancelled; every leave but an approved one is deleted; every refusal with its error |
| LeaveService.Service.CreateLeave | backend/src/modules/hrm/leaves/services.ts:242-321 | who the leave is for, every refusal, and the new pending row; a conflict exactly for a shared day with another active leave of that employee |
| LeaveService.Service.UpdateLeave | backend/src/modules/hrm/leaves/services.ts:323-405 | pending only, own or read-all, day count recomputed; a conflict exactly if a date is given and the new range shares a day with another active leave of that employee |
| LeaveService.Service.ApproveLeave | backend/src/modules/hrm/leaves/services.ts:407-490 | pending only; sets APPROVED and runs the stamping loop |
| LeaveService.Service.CancelLeave | backend/src/modules/hrm/leaves/services.ts:536-575 | pending and own only; sets CANCELLED |
| LeaveService.Service.RemoveLeave | backend/src/modules/hrm/leaves/services.ts:577-604 | deletes unless approved |
| StockProofs.LevelsReplayTheLedger | backend/src/modules/inventory/stockMovements/services.ts:52-96 | over every run the levels equal the ledger's replay with first movements clamped at zero, and none is negative |
| StockProofs.StepKeepsInv | backend/src/modules/inventory/stockMovements/services.ts:112-156 | each call keeps that, and a refused one changes neither table |
| StockProofs.MovementRaisesOrLowers | backend/src/modules/inventory/stockMovements/services.ts:18-68 | a movement in, transfer in or count raises the level by its quantity, any other lowers it and is refused exactly when a level is short; a missing level becomes the quantity received or 0; no other level changes |
| StockProofs.LedgerIsWhatWasAccepted | backend/src/modules/inventory/stockMovements/services.ts:86-96 | over every run the ledger grows by the movements of the accepted calls, in order, and by nothing else |
| StockProofs.TransferConservesExactlyWithSourceRow | backend/src/modules/inventory/stockMovements/services.ts:119-153 | an accepted transfer keeps the product's total exactly when the source row existed, else raises it by the quantity |
| StockProofs.TransferRefusedExactlyWhenShort | backend/src/modules/inventory/stockMovements/services.ts:119-153 | in a reachable state: each refusal of a transfer exactly, short exactly when the source row exists and holds less; accepted, the source loses the quantity, down to 0, and the target gains it |
| StockProofs.StockIsLedgerPlusClamp | backend/src/modules/inventory/stockMovements/services.ts:52-68 | over any run from empty tables a product's stock is what the accepted calls received (IN, TRANSFER_IN, COUNT) less what they issued, plus what the clamp added; equal to the difference exactly when no key starts by an issue |
| Stock.StockService.MoveInTx | backend/src/modules/inventory/stockMovements/services.ts:37-109 | one movement inside a transaction: refused, or the level raised or lowered by kind and the ledger extended |
| Stock.StockService.TransferStock | backend/src/modules/inventory/stockMovements/services.ts:119-156 | both movements or neither |
| Decimal.ParsePadded | backend/src/modules/crm/customers/services.ts:71-73 | parsing a printed number, padded to any width, gives it back |
| Decimal.LessIsNumeric | backend/src/modules/crm/customers/services.ts:65-69 | on numerals of one length string order is numeric order |
| CustomerCodes.GeneratedIsNewBelowTenThousand | backend/src/modules/crm/customers/services.ts:64-74 | while stored codes have four digits the generated one is new and its number greater than every stored one |
| CustomerCodes.GeneratedIsGreatestBelowNines | backend/src/modules/crm/customers/services.ts:64-74 | and it is the greatest string exactly when 9999 is not stored |
| CustomerCodes.GeneratedIsTakenExactlyAtRollover | backend/src/modules/crm/customers/services.ts:64-74 | on any store of generated codes the next code is taken exactly when the greatest one is all nines and its successor is stored |
| CustomerCodes.CreationFailsExactlyAtRollover | backend/src/modules/crm/customers/services.ts:76-117 | the same for an atomic creation after any run of atomic creations and removals |
| CustomerCodes.LateCreationFailsExactlyIfOneSucceededSince | backend/src/modules/crm/customers/services.ts:81-117 | a creation that generated its code before others and stores it after them fails on it exactly if one of them succeeded, or at the rollover |
| CustomerCodes.TenThousandCustomers | backend/src/modules/crm/customers/services.ts:64-117 | k creations from an empty table leave exactly the codes 1..min(k, 10000) |
| CustomerCodes.CustomersAreStoredExactly | backend/src/modules/crm/customers/services.ts:76-117 | a creation is a conflict exactly for a known e-mail, else fails on a stored code, else adds one row with the generated code |
| CustomerCodes.RemovalTakesOneRow | backend/src/modules/crm/customers/services.ts:181-200 | a removal takes out the named row and no other |
| CustomerCodes.CustomerService.GenerateCustomerCode | backend/src/modules/crm/customers/services.ts:64-74 | the successor of the greatest prefixed code in string order, or the first code |
| CustomerCodes.CustomerService.CreateCustomer | backend/src/modules/crm/customers/services.ts:76-120 | conflict on a known e-mail, failure on a taken code, else the new row |
| Payments.StatusFollowsPayments | backend/src/modules/sales/payments/services.ts:106-117 | over any run of checkouts and payments, from empty tables or any consistent ones, each order's status is computed from its own PAID payments, or before there is one from its checkout's |
| Payments.StatusFallsExactlyAfterCheckout | backend/src/modules/sales/payments/services.ts:106-117 | an accepted payment lowers the status exactly if it is the order's first and the checkout had counted more: no value, paid in full there and not here, or paid in part there and nothing counted here |
| Payments.StatusNeverFallsAgain | backend/src/modules/sales/payments/services.ts:16-22 | over any run, once an order has a payment of its own its status never falls |
| PaymentOutcomes.EveryOrderHasTheStatusOfItsPayments | backend/src/modules/sales/payments/services.ts:106-117 | the life of an order from empty tables: until a payment is recorded for it, PAID, PARTIAL or UNPAID by what its checkout took, one of no value PAID; from the first on by the PAID ones among the payments recorded for it alone |
| PaymentOutcomes.PaymentIsRecordedExactly | backend/src/modules/sales/payments/services.ts:76-104 | a payment is recorded as asked, exactly for a known order and invoice and a free number; only its order's status changes besides |
| PaymentOutcomes.CheckoutStoresEverything | backend/src/modules/sales/orders/services.ts:393-430 | an accepted checkout stores the order with its value, an invoice of its own, and each amount in order as a PAID payment of that invoice |
| PaymentOutcomes.NumberReads | backend/src/modules/sales/payments/services.ts:24-31 | a recorded number reads PAY-, year, month, dash and its rank in at least five digits |
| Payments.SplitPaymentNeverSucceeds | backend/src/modules/sales/orders/services.ts:397-418 | a checkout with two or more payments fails: on a negative amount, else on the unique number |
| CheckoutNumbers.CheckoutSucceedsExactly | backend/src/modules/sales/orders/services.ts:393-430 | a checkout is refused for a negative amount; else it succeeds exactly with no payment, or with one whose number is not taken, and otherwise fails on the unique number |
| CheckoutNumbers.CheckoutFailsExactlyWhenSplitOrAtRollover | backend/src/modules/sales/orders/services.ts:64-73 | after any run from empty tables it fails so exactly with two or more payments, or with one when the greatest number is a checkout number of all nines and its successor is stored |
| CheckoutNumbers.RolloverIsForGood | backend/src/modules/sales/orders/services.ts:64-73 | from then on, until the year 9999, no checkout with a payment succeeds |
| Payments.NumbersCountUp | backend/src/modules/sales/payments/services.ts:24-31 | over any run of checkouts and payments each recorded payment is numbered one more than the numbers with its month's prefix at that time, past five digits too |
| Payments.RankIsRecordedPlusTaken | backend/src/modules/sales/payments/services.ts:24-31 | that count is the payments recorded in the month plus the checkout numbers that carry its prefix, so without those the k-th gets k |
| Payments.NumbersNeverCollide | backend/src/modules/sales/payments/services.ts:24-31 | from empty tables, with checkouts in between, all numbers are distinct and no recorded payment is refused for its number |
| Payments.PaymentService.CreatePayment | backend/src/modules/sales/payments/services.ts:76-144 | refusals in order, the numbered payment, and the recomputed order status |
| Payments.PaymentService.CheckoutOrder | backend/src/modules/sales/orders/services.ts:393-430 | the loop collects the payments with their numbers; they, the invoice and the order's status are stored, or nothing is |
| Payments.PaymentService.SumPaid | backend/src/modules/sales/payments/services.ts:106-110 | the loop sums the order's PAID payments |
| AttendanceService.OncePerDay | backend/src/modules/hrm/attendance/services.ts:319-413 | over any run of check-ins, check-outs and leave stamps a day is checked in at most once, out at most once and only after in |
| AttendanceService.HoursStandExactlyUnlessStamped | backend/src/modules/hrm/attendance/services.ts:376-413 | over any run the hours and status stored for a checked-out day are those of its interval exactly if no leave was stamped over it afterwards |
| AttendanceService.RecordedTimesAreTheFirst | backend/src/modules/hrm/attendance/services.ts:319-413 | over any run a day records the time of its first check-in and of the first check-out after it that came less than a hundred hours later |
| AttendanceService.ChecksAreAcceptedExactly | backend/src/modules/hrm/attendance/services.ts:319-430 | a check-in is accepted exactly once a day and makes the row PRESENT from then; a check-out exactly once after it; no other row changes, and a refusal changes nothing |
| AttendanceService.HoursAreRounded | backend/src/modules/hrm/attendance/services.ts:51-56 | hours are rounded to hundredths, halves up, for a positive interval, zero otherwise, and non-decreasing in the check-out time |
| AttendanceService.HalfDayWindow | backend/src/modules/hrm/attendance/services.ts:58-65 | the status is HALF_DAY exactly from 14382000 ms up to 25182000 ms, else PRESENT |
| AttendanceService.OnlyHundredHoursOverflow | backend/prisma/schema.prisma:943 | the database column refuses exactly intervals that round to a hundred hours or more |
| AttendanceService.Service.SelfCheckIn | backend/src/modules/hrm/attendance/services.ts:319-374 | refuses a second check-in, else stamps the time and PRESENT |
| AttendanceService.Service.SelfCheckOut | backend/src/modules/hrm/attendance/services.ts:376-430 | the three refusals, else time, hours and status |
| Pagination.PagesPartitionExactlyWhenTheyReach | backend/src/utils/pagination.ts:29-45 | the announced pages concatenate to the whole list for every size that validation admits; for callers that pass larger ones, exactly when the capped pages reach the end |
| Pagination.HasNextIsExact | backend/src/utils/pagination.ts:29-45 | a validated page has that size; hasNext holds exactly when an item lies after it, hasPrevious exactly when it does not begin the list |
| TableUrl.UrlParamsFromState | frontend/src/lib/table-utils.ts:96-124 | the loop writes the five table parameters and then the filters, later ones winning |
| TableUrl.ReadingBackGivesTheState | frontend/src/lib/table-utils.ts:69-124 | reading back gives the same page, size, sorting and search, with defaults where nothing was written |
| TableUrl.EveryUrlReadsAsAPage | frontend/src/lib/table-utils.ts:69-94 | whatever a URL says, page and size are positive: the number written there, else a positive default, else 1 and 25 |
| Audit.SanitizedAt | backend/src/middleware/audit.ts:42-84 | a path leads somewhere in the result exactly when it did before and mentions no dropped key, and then to the sanitised value |
| Audit.SanitizeTwice | backend/src/middleware/audit.ts:82-84 | sanitising again changes nothing |
| Audit.LeafIsKeptExactlyUnlessDateOrDecimal | backend/src/middleware/audit.ts:42-80 | leaves survive, big integers as text, and only dates and decimals stop being leaves |

## Left out

- Orders beyond the payments taken at checkout (items, prices, their stock movements, cancellation, and removal, which unlinks payments), refunds and sales reports.
- JWT signing, bcrypt, SHA-256, AES-GCM, the TOTP algorithm, UUID generation, image sniffing, Unicode case mapping beyond ASCII: library code, taken as described above.
- Token payload fields other than user, identifier, family and expiry; IP addresses, user agents, roles and permissions.
- E-mail lookup and normalisation at login and for customers: users are named by their key and e-mails arrive already normalised.
- Database isolation: transactions are atomic, so write skew between concurrent leave creations or payment creations is not modelled; nor is the interleaving of calls outside authentication, uploads and the browser.
- Time zones and daylight saving, floating point (hours and money are exact), numbers above 2^53 in parseInt.
- The database's collation: code order is character order, which agrees on prefix and digits.
- Which error a negative stock level raises: the table's check constraint and the service's own test refuse the same updates.
- TabProofs.TabNeverReplays: excludes a second tab, lost refresh responses, page loads while a refresh is in flight, and calling the refresh endpoint outside the helper; what the first three lead to is stated exactly. After a page load the response to a request sent before it is dropped.
- ManyTabs.SessionSurvivesExactlyIfLastResponseRotated: the tabs only refresh; logins, revocations and other clients are not part of it.
- LeaveProofs.ApprovedLeavesStayStamped: is about runs of the leave service; attendance calls may overwrite a LEAVE row.
- ImageLeaks.EveryFileIsNamedExactlyWithoutLeak: is about runs in which deletions work; with failing ones the condition is not exact, as FailedDeletionCanUndoALeak shows.
- Payments.NumbersCountUp: years have four digits; from year 10000 on one month's prefix can start another's.
- Attendance administration, leave reasons and documents, listing, search, sorting and plain record keeping: no further state to keep.
- Maps, sets, buffers, functions, `toJSON` methods and `__proto__` keys in audit snapshots: values are JSON values, dates, decimals and big integers.
- Page components and Redux wiring: the store is signed in by a login response and out by a logout or password-change response.
