# Formal model of Pearnly's isolation, sessions, money, dates and stores

This Dafny project models the parts of the Pearnly backend where a mistake is
hard to see in one function, and proves what they keep over whole runs:
tenant isolation by row-level security, the one-device session rule over stale
caches, the top-up ledger, billing calendars and Thai dates, login codes and
lockouts, password reset tokens, the file envelope, the workspace cache and the
merging of scanned pages. Nothing was executed; every statement below is proved
for all inputs, all runs or all reachable states it quantifies over.

`dafny verify dfyconfig.toml` checks the whole project.

## How it is laid out

| file | what it holds |
|---|---|
| `RlsPolicy.dfy` | the policy strings of core/rls.py as predicates in SQL's three-valued logic, nested EXISTS included |
| `RlsCatalogue.dfy` | the DDL as steps on the table catalogue |
| `PooledCursor.dfy` | `get_cursor_rls` as a transaction on a pooled connection that runs an arbitrary caller |
| `RlsIsolation.dfy`, `RlsRuns.dfy`, `NonInterference.dfy` | isolation: from one row decision, over one statement and one transaction, to whole runs |
| `StatementEffects.dfy` | what a transaction leaves behind, what each statement does to a table, and what the shared-Express policies add |
| `SharedInterference.dfy` | the run in which another tenant does matter, and exactly when there is one |
| `Sessions.dfy` | tokens, `active_jti`, password times and per-process row caches, with every version of every row kept |
| `SessionAnswers.dfy` | what each answer to a token means, and what disabling, a password change, a login and a logout bring about over a run |
| `Topup.dfy`, `TopupInterleaving.dfy` | top-up requests and the ledger with atomic handlers, and admin transactions cut at read, lock, write and commit |
| `TopupAnswers.dfy` | what each answer of the top-up handlers means for requests, wallets and the ledger |
| `Calendar.dfy`, `BillingRanges.dfy` | day numbers, and the half-open ranges of the billing pages |
| `ThaiDate.dfy`, `HistoryDates.dfy` | the printed-date parser and the Buddhist display, and the page loop that stores dates |
| `SlidingWindow.dfy`, `EmailCodes.dfy`, `EmailCodeAnswers.dfy`, `LoginLock.dfy`, `PasswordReset.dfy` | rate limits, sign-up codes and how long they live, login lockout and reset tokens |
| `FileCrypto.dfy` | the envelope codec and files written while encryption is switched on and off |
| `WorkspaceCache.dfy` | the cached default workspace against the query it stands for |
| `PageMerge.dfy` | the page merge and the split by direction |
| `Common.dfy`, `Strings.dfy` | options, filters and maps; trimming and ASCII case |

Code that changes state is a class whose methods equal a step function of the
old state; the theorems are about runs of those step functions. Beside them
stands, for each handler, what its answers mean and what it leaves behind, said
on the fields and without the step function. What the code
reads from elsewhere (the clock, the database's answer, a mail server, the slip
service, random codes and keys) is a parameter of a step, so the theorems hold
for every outcome.

## What came out of it

- Under a configured `RLS_ROLE`, a tenant's sessions are told the same whatever
  foreign rows the database holds and whichever connections they borrow, and
  leave every foreign row as it was (`NonInterference.TenantIsolation`). On a
  shared pool, striking out everyone else's transactions changes nothing
  (`NonInterference.OthersDoNotMatter`) if and only if the shared-Express
  policies are off or neither of their tables is written by user alone
  (`SharedInterference.OthersMatterExactly`). `erp_push_logs` is written by user
  alone (services/erp/push_schema.py:229): with the policies on, a log that a
  user of another tenant writes under this tenant's id is shown to this tenant.
- An admin reject reads its request without a lock. A request that was credited
  ends up not approved exactly when its approval commits between the look and
  the write of a reject that commits later
  (`TopupInterleaving.ContradictedByOverlap`), and that does occur
  (`TopupInterleaving.RejectAfterCredit`). It is never credited twice.
- A reset token is read and used in two transactions: it changes more than one
  password exactly when two resets have it open at once and both write
  (`PasswordReset.UsedTwiceExactly`); resets one after another never do.
- Printing a date and reading it back is exact from year 1857 on and from there
  only (`ThaiDate.DisplayReadsBack`). A stored date still looks Buddhist exactly
  when a year of 2943 or more was printed (`HistoryDates.BuddhistOnlyFrom2943`).
- core/file_crypto.py:97-100 says that any changed byte of an envelope is
  noticed. The code does not read the version byte and takes anything without
  the magic for plaintext; the model follows the code
  (`FileCrypto.HeaderUnchecked`).
- After a logout `active_jti` is NULL and core/auth.py:304 lets every unexpired
  token of that user through, the one logged out included
  (`SessionAnswers.LogoutLetsAllThrough`).
- A disabled account, an old password and an older login keep working only at a
  process that still holds an older copy of the row, for eight seconds at most,
  whatever else happens (`SessionAnswers.DisabledStaysOut`, `PasswordShutsOut`,
  `LoginShutsOut`).

## Model

| member | source | states |
|---|---|---|
| `RlsPolicy.EnrolledVisible` | core/rls.py:30-45 | a row of an enrolled table is visible exactly when the table's own template or the shared-Express policy holds for it: permissive policies are OR-ed |
| `RlsPolicy.EnrolledWritable` | core/rls.py:89-97 | a write is accepted exactly when the FOR ALL template holds, the SELECT policies having no say |
| `RlsPolicy.WritableIsVisible` | core/rls.py:30-45 | whoever may write a row may see it |
| `RlsPolicy.HasParentMeans` | core/rls.py:120-131 | the parent's own filter inside the EXISTS removes no row that the inner predicate admits |
| `RlsPolicy.ChildFollowsParent` | core/rls.py:120-169 | a child row is visible, and writable, exactly when some visible parent row has its key |
| `RlsPolicy.NestingIsEnough` | core/rls.py:50-131 | one level of nested EXISTS decides everything, in the child policies and the shared log policy alike; more would change no decision |
| `RlsPolicy.SharedOnlyAddsOwnRows` | core/rls.py:47-86 | the shared-Express policies only add rows of the current tenant and workspace that are or belong to an enabled shared endpoint (`StatementEffects.SharedEndpointExactly` says which, on the columns), with the flag on; no write decision changes |
| `StatementEffects.SharedEndpointExactly` | core/rls.py:50-65 | the shared endpoint policy shows exactly the rows whose adapter, enabled and shared_scope columns say express, true and true, of the tenant and workspace installed, with the flag on and its pair the installed pair |
| `StatementEffects.SharedLogExactly` | core/rls.py:66-86 | the shared log policy shows exactly the logs of that pair whose endpoint_id is the key of such an endpoint of that pair |
| `StatementEffects.SharingTurnsOnExactly` | services/erp/shared_express_schema.py:101-130 | the flag goes up if and only if sharing is ready and the tenant and workspace named are the installed ones, neither of them empty |
| `RlsCatalogue.SchemaCursor.Apply` | core/rls.py:89-97 | the DDL loop leaves every named table with RLS on and exactly its standard policy replaced |
| `RlsCatalogue.SchemaCursor.ApplyViaParent` | core/rls.py:120-131 | the same for a child table |
| `RlsCatalogue.SchemaCursor.ApplySharedExpress` | core/rls.py:50-86 | both shared tables get their extra SELECT policy and nothing else changes |
| `RlsCatalogue.SchemaCursor.DisableOrphanRls` | core/rls.py:187-207 | RLS goes off on exactly the tables that had it on without a policy, which are returned |
| `RlsCatalogue.PlanEnrols` | core/rls.py:89-169 | start-up hooks in any order and number end in an enrolled catalogue once every table was named, shared policies included |
| `RlsCatalogue.EnrolExactly` | core/rls.py:89-97 | on the tables named RLS is on, FORCE is added if asked and never taken back, `tenant_isolation` is the FOR ALL template and other policies stay; other tables stay |
| `RlsCatalogue.AddSharedExactly` | core/rls.py:50-86 | the two tables get their FOR SELECT policy beside what they have; other tables stay |
| `RlsCatalogue.SweepSparesEnrolled` | core/rls.py:187-207 | the sweep touches no enrolled table |
| `RlsCatalogue.SweepLeavesNoOrphan` | core/rls.py:187-207 | after the sweep no table denies everything, and no other table lost RLS |
| `PooledCursor.Pool.GetCursorRls` | core/db.py:112-154 | a pooled transaction equals: undo to what the connection remembers, install the context, run the caller, commit only on a clean return with commit; what that leaves is said by the next three rows |
| `StatementEffects.TxRollsBack` | core/db.py:145-151 | unless the block returned cleanly and commit was asked for, the database is what it was |
| `StatementEffects.TxCommits` | core/db.py:145-151 | otherwise the database and the replies are those of the statements the block asked for, in their order, none of which failed |
| `StatementEffects.TxReturnsExactly` | core/db.py:145-151 | a transaction returns cleanly if and only if the block asks for statements that all succeed, within its time, and then returns |
| `StatementEffects.ConnectionRemembers` | core/db.py:135-144 | every setting a transaction installed is known to the connection afterwards, and none is forgotten |
| `PooledCursor.Serve` | core/db.py:145-151 | the caller's block runs statement by statement until it returns, raises or fails |
| `RlsIsolation.VisibleIsOwn` | core/rls.py:21-45 | whatever a session of the observer sees is the observer's own row |
| `RlsIsolation.WritableIsOwn` | core/rls.py:21-45 | whatever it may write is its own, and points at an existing parent |
| `RlsIsolation.SameDecisions` | core/rls.py:21-86 | two sessions that differ only in NULL against '' decide alike over databases that agree on the observer's rows |
| `RlsRuns.ExecKeeps` | core/db.py:145-151 | one statement returns own rows only and leaves every foreign row as it was |
| `RlsRuns.ExecSame` | core/db.py:145-151 | one statement replies alike, and leaves the databases alike, when they were alike for the observer |
| `NonInterference.TxKeeps` | core/db.py:112-154 | a whole transaction leaves foreign rows alone, and no statement in it returned one |
| `NonInterference.TenantIsolation` | core/db.py:112-154 | over any run for one tenant, on any connections in any state, replies depend on its own rows alone and foreign rows stay |
| `NonInterference.OthersDoNotMatter` | core/db.py:112-154 | with many tenants on one pool, a tenant is told exactly what it would be told if the others' transactions had never run, shared-Express policies included as long as no table that has one is written by user alone |
| `SharedInterference.TheyAreSeen` | core/rls.py:66-86 | where one is, two transactions suffice: a user of another tenant writes a row with this tenant's id, and this tenant's SELECT returns it |
| `SharedInterference.OthersMatterExactly` | core/rls.py:47-86 | other tenants never matter to any tenant, over any run, if and only if the shared policies are off or neither of their tables is written by user alone; services/erp/push_schema.py:229 enrols `erp_push_logs` by user |
| `NonInterference.ReachableIsSound` | core/db.py:112-154 | the databases these theorems ask for (typed ids, unique keys, no reference to a key not yet made) are what every run of calls without bypass makes from an empty one |
| `NonInterference.ForeignRowGoesUnseen` | core/rls.py:30-45 | any new row that is not the tenant's, child rows included, may be added to any such database, and the result is one that the isolation theorem accepts beside it |
| `NonInterference.NoContextReadsNothing` | core/db.py:130-144 | without tenant and user every SELECT is empty and nothing is written, whatever the connection served before |
| `NonInterference.ContextDecides` | core/rls.py:21-45 | on any connection the app role sees and writes exactly the rows that the given tenant, workspace and user are entitled to |
| `StatementEffects.SelectReturnsMine` | core/rls.py:30-45 | a SELECT returns exactly the entitled rows that its condition picks, in order, and changes nothing |
| `StatementEffects.InsertAddsMine` | core/rls.py:30-45 | an INSERT appends its row under a new key if the context is entitled to it, else it fails and changes nothing |
| `StatementEffects.UpdateChangesMine` | core/rls.py:30-45 | an UPDATE assigns to exactly the entitled rows picked, in place, and fails as a whole if one of them would stop being entitled |
| `StatementEffects.DeleteRemovesMine` | core/rls.py:30-45 | a DELETE removes exactly the entitled rows picked, and counts them |
| `StatementEffects.BypassAdmitsAll` | core/rls.py:21-45 | with the bypass setting on, every policy admits every row |
| `NonInterference.OwnerReadsAll` | core/db.py:130-134 | without `RLS_ROLE`, or with bypass, a SELECT returns every row |
| `StatementEffects.OwnerWritesAll` | core/db.py:130-134 | there every insert of a typed row succeeds, and a DELETE removes every row picked |
| `Sessions.AuthServer.constructor` | core/auth.py:97-130 | an empty system |
| `Sessions.AuthServer.CreateAccessToken` | core/auth.py:97-130 | a login makes a new `jti`, registers it as the user's `active_jti`, evicts this process's copy, and returns the token even when the write fails |
| `Sessions.AuthServer.RevokeCurrentToken` | core/auth.py:133-158 | a logout clears `active_jti` only if it is this token's, and evicts |
| `Sessions.AuthServer.FindUserByIdCached` | services/auth/user_lookup.py:74-88 | a copy is served while good, else the current row, which is then kept eight seconds |
| `SessionAnswers.CopyIsKept` | services/auth/user_lookup.py:74-88 | a request that has to read the row keeps a copy for eight seconds, one with a good copy changes nothing |
| `Sessions.AuthServer.GetCurrentUser` | core/auth.py:229-321 | the checks in their order: account, password time, device, the last with a second look at the table |
| `SessionAnswers.NoRowExactly` | core/auth.py:242-259 | a token is invalid if and only if it is expired or not yet issued; the user is not found if and only if there is neither a good copy nor a row that can be read |
| `SessionAnswers.AnswerExactly` | core/auth.py:260-321 | by the row the process holds: disabled exactly when it is not active, password changed exactly when it is active and the token is from an earlier second, and else accepted exactly when that row or the second look admits the device |
| `SessionAnswers.DisabledStaysOut` | core/auth.py:260-264 | over any run after an account is disabled and until it is enabled, its tokens are accepted only by a process holding a row from before, for eight seconds at most |
| `SessionAnswers.PasswordShutsOut` | core/auth.py:272-293 | over any run after a password change, a token from an earlier second is accepted only by a process holding a row from before, for eight seconds at most |
| `SessionAnswers.LoginRegisters` | core/auth.py:97-130 | a login hands out a new `jti` for twelve hours or seven days, registers it, drops this process's copy, and touches no other user or process |
| `SessionAnswers.LoginDecidesHere` | core/auth.py:119-125 | at the process of a registered login its token is accepted at once and every other one with a `jti` is not |
| `SessionAnswers.LoginShutsOut` | core/auth.py:301-321 | over any run after a registered login, until the next one or a logout with its token, every other token with a `jti` is accepted only by a process holding a row from before, for eight seconds at most |
| `SessionAnswers.LogoutClears` | core/auth.py:145-152 | a logout with the active token clears `active_jti` and drops this process's copy, with any other it only drops the copy; nothing else changes |
| `SessionAnswers.LogoutIdle` | core/auth.py:138-158 | an expired token, one without a `jti`, or a failed write logs nobody out |
| `SessionAnswers.LogoutLetsAllThrough` | core/auth.py:301-304 | after a logout the process accepts a token of that user if and only if it is unexpired, the account is active and the password rule is met |
| `Sessions.ActiveIsNewest` | core/auth.py:119-125 | in every reachable state `active_jti` is NULL or the newest one |
| `Sessions.OldLogoutIsHarmless` | core/auth.py:145-152 | a logout with any token but the newest changes no row |
| `Sessions.NewestRevokedExactly` | core/auth.py:301-321 | the newest token is refused as revoked if and only if the process holds a good, active row naming another device and its second look finds no row |
| `Sessions.OldTokenOnlyWhereStale` | core/auth.py:301-321 | while a login's session lasts, any other token is accepted only by a process holding a row from before that login, so for at most eight seconds after it |
| `Sessions.PasswordEndsOldTokens` | core/auth.py:272-293 | a token issued before the second of a password change is accepted only from an older cached row, so for at most eight seconds after it |
| `Sessions.PasswordSparesNewTokens` | core/auth.py:272-293 | a token issued in that second or later passes the rule at every process |
| `Sessions.RunInv` | core/auth.py:97-152 | every cached row was current within the cache lifetime, and `jti`s never repeat, over every run |
| `Topup.Billing.constructor` | routes/billing_topup_routes.py:114-137 | empty books |
| `Topup.Billing.GrantCredits` | services/billing/charge.py:74-104 | the balance grows by the amount, from zero if there was no wallet, and one ledger row records it |
| `Topup.Billing.DebitUsage` | services/billing/charge.py:47-71 | a charge lowers the balance, below zero if need be, with one ledger row |
| `Topup.Billing.TopupRequest` | routes/billing_topup_routes.py:114-137 | a request of an owner with a tenant becomes pending, all else is refused |
| `Topup.Billing.UploadSlip` | routes/billing_topup_routes.py:140-220 | a slip is stored on a pending request of the same tenant, and credited when the transfer was verified |
| `Topup.Billing.AdminApprove` | routes/billing_topup_routes.py:296-333 | a pending request is approved with the admin's amount and credited once (`TopupAnswers.ApproveCredits`) |
| `Topup.Billing.AdminReject` | routes/billing_topup_routes.py:336-353 | a pending request is rejected and no money moves |
| `TopupAnswers.ApproveCredits` | routes/billing_topup_routes.py:300-333 | an approval is done if and only if the amount is positive and the request pending; then request, wallet, ledger and credited total show exactly the admin's amount and the reply the new balance, and nothing else changes |
| `TopupAnswers.SlipCredits` | routes/billing_topup_routes.py:149-220 | a slip is stored if and only if the request is pending, the uploader's own and the file not too large; the amount transferred is credited if and only if it is within a baht of the amount asked and can be booked |
| `TopupAnswers.RejectMovesNothing` | routes/billing_topup_routes.py:336-353 | a pending request becomes rejected, at the amount it had, and no money moves |
| `TopupAnswers.AskOpens` | routes/billing_topup_routes.py:114-137 | a request is opened if and only if an owner with a tenant asks for more than nothing and at most 500000 baht |
| `TopupAnswers.ChargeDebits` | services/billing/charge.py:47-71 | a charge takes exactly its cost from one wallet and writes one ledger row |
| `TopupAnswers.WalletFollowsAnswers` | routes/billing_topup_routes.py:114-353 | over any run a wallet changes by exactly what the answers given say was credited and charged |
| `TopupAnswers.CreditedOnce` | routes/billing_topup_routes.py:160-161 | over any run at most one answer says that a request was credited, and none if it was not pending |
| `Topup.BooksBalance` | routes/billing_topup_routes.py:114-353 | over any run wallets equal their ledgers, every balance recorded is the sum so far, approved requests and top-up rows match one to one, and each tenant's credited total is the sum over its approved requests |
| `Topup.RequestsEvolve` | routes/billing_topup_routes.py:160-161 | a request goes from pending to one final state and then never changes |
| `Topup.AutoApprovedIsClose` | routes/billing_topup_routes.py:76-85 | a request approved by its slip is credited within one baht of what was first asked |
| `Topup.EmptyIsSound` | routes/billing_topup_routes.py:114-137 | the empty books balance |
| `TopupInterleaving.CreditedAtMostOnce` | routes/billing_topup_routes.py:301-327 | in every interleaving of approve and reject, crashes included, a request is credited at most once and never pending again |
| `TopupInterleaving.CreditsAreApprovals` | routes/billing_topup_routes.py:311-327 | in every interleaving credits and committed approvals match one to one, at the admin's amount |
| `TopupInterleaving.FreshIsSane` | routes/billing_topup_routes.py:122-137 | requests nobody reviewed yet satisfy what that asks for at the start |
| `TopupInterleaving.ContradictedByOverlap` | routes/billing_topup_routes.py:301-352 | a credited request ends up not approved if and only if its approval commits between the look and the write of a reject that commits later |
| `TopupInterleaving.UndisturbedNeverContradicts` | routes/billing_topup_routes.py:341-352 | rejects that find the request unlocked and write right after they look never contradict a credit |
| `TopupInterleaving.RejectAfterCredit` | routes/billing_topup_routes.py:341-352 | to every pending request that nobody has locked: the reject looks, the approve credits, the reject writes |
| `Calendar.OrdinalOrders` | routes/billing_records_routes.py:46-66 | day numbers order valid dates as their fields do |
| `Calendar.NextDayIsNext` | routes/billing_records_routes.py:55-56 | adding a day gives the valid date with the next day number, and fails on 9999-12-31 only |
| `BillingRanges.RangeIsPeriod` | routes/billing_records_routes.py:46-66 | a range holds exactly the days sharing the anchor's day, month or year |
| `BillingRanges.RangesTile` | routes/billing_records_routes.py:46-66 | two ranges of one kind that share a day are the same |
| `BillingRanges.RangeHoldsAnchor` | routes/billing_records_routes.py:46-66 | a range has valid ends and holds its anchor; without one the period is unknown, and it overflows only in the last day, month or year |
| `BillingRanges.RangeLength` | routes/billing_records_routes.py:46-66 | a range is a day, the month's length or the year's length long |
| `BillingRanges.MonthsCoverYear` | routes/billing_records_routes.py:57-66 | twelve month ranges follow each other from the start of their year's range to its end |
| `BillingRanges.OneMonthAgoSteps` | routes/billing_records_routes.py:69-74 | a month back is max(length of the previous month, day) days back, 28 to 31, on the same day unless clipped; it fails in January of year 1 only |
| `BillingRanges.OneMonthAgoMonotone` | routes/billing_records_routes.py:69-74 | a later date never gives an earlier month-ago |
| `BillingRanges.ExplicitIsInclusive` | routes/billing_records_routes.py:77-89 | an explicit range holds exactly the days from first to last |
| `BillingRanges.ExportNeverEmpty` | routes/billing_records_routes.py:92-99 | an export range is bounded, not empty and holds its anchor, for years 2 to 9998 |
| `BillingRanges.ExportHolds` | routes/billing_records_routes.py:92-99 | an export without a period holds exactly the days from a month ago to today; any other is its period's range |
| `BillingRanges.PeriodWords` | routes/billing_records_routes.py:46-50 | day, month and year are read in any case, and nothing else is |
| `ThaiDate.DisplayReadsBack` | core/thai_date.py:66-121 | reading a displayed date back gives what the ISO string gives, if and only if its year is 1857 or later |
| `ThaiDate.IsoReadsAndShows` | core/thai_date.py:104-121 | an ISO text in a Gregorian or Buddhist year, padded or not, is read as its day and shown as DD/MM and the Buddhist year |
| `ThaiDate.OtherTextsStay` | core/thai_date.py:111-120 | a text that names no real day is shown as it is |
| `ThaiDate.DisplayIdempotent` | core/thai_date.py:104-121 | displaying twice is displaying once, on every string |
| `ThaiDate.DisplayNamesDay` | core/thai_date.py:104-121 | two ISO strings are displayed alike if and only if they name the same day |
| `ThaiDate.ParsedIsDay` | core/thai_date.py:66-101 | a parse result is the ISO string of a real day, and the parser leaves it alone if and only if its year is below 2400 |
| `ThaiDate.IsoFormExactly` | core/thai_date.py:33 | a text is in ISO form if and only if it is, trimmed, four, one or two, and one or two digits joined by hyphens |
| `ThaiDate.ParsedLooksBuddhist` | core/thai_date.py:36-43 | a parsed date looks Buddhist, and the year conversion is not idempotent on it, if and only if the written year is 2943 or more |
| `ThaiDate.BuddhistYearExactly` | core/thai_date.py:124-134 | a text in ISO form has a Buddhist year if and only if its year is 2400 or more |
| `ThaiDate.NearestReading` | core/thai_date.py:46-59 | two digits are read as the strictly nearer of their two years |
| `ThaiDate.FullYearReads` | core/thai_date.py:66-101 | a date printed with a four-digit year is read as a given day if and only if it is written in that day's Gregorian year below 2400 or its Buddhist year from 2400 on |
| `ThaiDate.GregorianShortYear` | core/thai_date.py:46-97 | a date printed with two Gregorian digits, in any of the separators, padded or not, is recovered if and only if the anchor is at most 21 years before it |
| `ThaiDate.BuddhistShortYear` | core/thai_date.py:46-97 | the same with two Buddhist digits, if and only if the anchor is at most 21 years after it |
| `ThaiDate.NamedDateReads` | core/thai_date.py:63-97 | day, month name and year, with any spaces and with or without a comma, are read as such, and not at all when the name is no month's |
| `ThaiDate.MonthNumberIs` | core/thai_date.py:234-242 | a month name is read as a month one of the tables gives it, with or without trailing dots, and only then |
| `HistoryDates.DeriveDatesFromPrinted` | routes/history_routes.py:193-215 | the in-place loop equals its specification: pages before the first refused one rewritten, its text returned |
| `HistoryDates.LetThroughSettles` | routes/history_routes.py:193-215 | pages are let through if and only if each can be settled; then each printed page holds its parsed date, the others are untouched and not Buddhist |
| `HistoryDates.PrintedExactly` | routes/history_routes.py:205-206 | a page has a printed date if and only if its raw date is truthy and its text not all spaces |
| `HistoryDates.RefusedIsFirst` | routes/history_routes.py:205-212 | a refusal names the first page that cannot be settled; later pages are untouched |
| `HistoryDates.SecondRunKeeps` | routes/history_routes.py:193-215 | a second run changes nothing and lets the pages through |
| `HistoryDates.BuddhistOnlyFrom2943` | routes/history_routes.py:205-214 | a stored date looks Buddhist if and only if a year of 2943 or more is printed |
| `SlidingWindow.Admit` | routes/login_routes.py:80-96 | counting before adding keeps the limit in every window, wherever it ends |
| `SlidingWindow.ReachedBy` | routes/login_routes.py:80-96 | for times in order the limit is reached if and only if the one so many from the end is still in the window |
| `EmailCodes.EmailCodeRoutes.SendEmailCode` | routes/auth_email_code_routes.py:180-286 | the checks in order, older codes voided, the new one stored, and voided again when the mail fails |
| `EmailCodes.EmailCodeRoutes.VerifyEmailCode` | routes/auth_email_code_routes.py:290-330 | the newest row with this code decides: missing, used, expired or good |
| `EmailCodeAnswers.SendExactly` | routes/auth_email_code_routes.py:183-281 | a code is sent if and only if the address is well formed and not registered, the purpose is sign-up, none was sent in the last minute and fewer than five in the last hour, and the mail went out; the refusals change nothing |
| `EmailCodeAnswers.SentCodeVerifies` | routes/auth_email_code_routes.py:290-323 | over any run a code that was sent verifies for ten minutes and then is expired, unless another is asked for its address or it is used |
| `EmailCodeAnswers.SignsUpOnce` | services/auth/auth_signup.py:155-183 | over any run a code that was sent lets one person sign up at most |
| `EmailCodeAnswers.NormalisedIgnores` | routes/auth_email_code_routes.py:183 | spaces around an address and the case of its letters make no difference |
| `EmailCodes.OneUnusedCode` | routes/auth_email_code_routes.py:243-258 | in every reachable state an unused code is the newest row of its address and purpose |
| `EmailCodes.VerifiesOnlyNewest` | routes/auth_email_code_routes.py:300-323 | a code verifies if and only if it is that of the newest row, unused and at most ten minutes old |
| `EmailCodes.FailureLeavesNoCode` | routes/auth_email_code_routes.py:263-278 | after a failed mail a live code remains if and only if marking it used failed too |
| `EmailCodes.CodesAreLimited` | routes/auth_email_code_routes.py:203-227 | codes for one address are a minute apart and at most five in any hour, over every run |
| `LoginLock.LoginRoutes.LogIn` | routes/login_routes.py:76-156 | one login: locked, refused and recorded, refused unrecorded, or let in with the failures cleared |
| `LoginLock.OutcomeExactly` | routes/login_routes.py:78-135 | a login succeeds if and only if the name is not locked and the account is there, its password matches, it is active, not expired and at its door; which of the others are told they are locked, disabled or expired |
| `LoginLock.AnswerHidesAccount` | routes/login_routes.py:98-105 | without the password, the answer and what is recorded are the same whether or not there is such an account |
| `LoginLock.WrongDoorLooksAlike` | routes/login_routes.py:127-133 | an account at the wrong door gets the answer of an unknown one and is not counted |
| `LoginLock.KeyIgnores` | routes/login_routes.py:69 | spaces around a name and the case of its letters make no difference |
| `LoginLock.LoginRoutes.RecordLoginFailure` | routes/login_routes.py:58-73 | one row under the trimmed lower-case name |
| `LoginLock.FailuresAreLimited` | routes/login_routes.py:80-96 | at most five failures of one name stand in any thirty minutes, over every run |
| `LoginLock.LockedUntil` | routes/login_routes.py:80-96 | a name is locked if and only if its fifth last failure is less than thirty minutes old |
| `LoginLock.LoginCounts` | routes/login_routes.py:98-156 | what one login does to the failures of each name |
| `PasswordReset.PasswordRoutes.ResetPassword` | routes/auth_password_routes.py:352-422 | the checks in order, then password, tokens and failures change together |
| `PasswordReset.PasswordRoutes.ChangePassword` | routes/auth_password_routes.py:436-461 | a change needs the old password and a strong enough new one |
| `PasswordReset.SecondUseOverlapped` | routes/auth_password_routes.py:366-420 | two changes with one token overlapped: the later one read it before the earlier one wrote |
| `PasswordReset.OnceIfAtomic` | routes/auth_password_routes.py:366-420 | a token changes a password at most once over any run of resets that write right after they read |
| `PasswordReset.UsedTwiceExactly` | routes/auth_password_routes.py:366-420 | over any run, a token changes more than one password if and only if at some moment two resets have read it and both go on to write |
| `PasswordReset.OnceIfOneAfterAnother` | routes/auth_password_routes.py:366-420 | resets that run one after another use each token at most once |
| `PasswordReset.OverlapUsesTwice` | routes/auth_password_routes.py:366-420 | such an overlap can be had for every usable token and any two handlers |
| `PasswordReset.NoTokenLeft` | routes/auth_password_routes.py:396-411 | right after a reset no token issued so far for that address is usable |
| `PasswordReset.UsableExactly` | routes/auth_password_routes.py:359-387 | a token is usable if and only if it is unused, at most fifteen minutes old and the new password is good |
| `PasswordReset.AnswersExactly` | routes/auth_password_routes.py:359-385 | each answer to an issued token, on its row, the clock and the characters of the new password |
| `PasswordReset.UnknownIsRefused` | routes/auth_password_routes.py:359-379 | a token that was never issued is never usable |
| `PasswordReset.TokenLives` | routes/auth_password_routes.py:366-411 | over any run after it was issued a token is usable with a strong password if and only if fifteen minutes have not passed and no reset that read it, or another token of its address, has written |
| `PasswordReset.ResetSparesOthers` | routes/auth_password_routes.py:396-420 | a reset leaves the tokens of other addresses and the failures of other names alone |
| `PasswordReset.ChangeExactly` | routes/auth_password_routes.py:446-461 | a change takes the old password and a strong new one, and touches one account |
| `PasswordReset.ResetChangesOneAccount` | routes/auth_password_routes.py:389-420 | a reset changes one account and forgets the login failures of its two names |
| `FileCrypto.FileCryptoModule.GetKek` | core/file_crypto.py:71-77 | the key is loaded once and kept |
| `FileCrypto.FileCryptoModule.SealFile` | core/file_crypto.py:85-93 | sealing prints the envelope, or fails for want of a key |
| `FileCrypto.FileCryptoModule.UnsealFile` | core/file_crypto.py:96-114 | reading with a moving offset equals parsing the envelope and decrypting |
| `FileCrypto.SealExactly` | core/file_crypto.py:85-93 | sealing fails if and only if there is no key; what it gives is the magic, the version one, the wrapped key's length high byte first, and the three parts |
| `FileCrypto.UnsealExactly` | core/file_crypto.py:96-114 | a file with the magic gives a plaintext if and only if there is a key that opens its wrapped key and that key opens its ciphertext to all of it |
| `FileCrypto.NoKeyNoWrite` | core/file_crypto.py:85-93 | with encryption on and no usable key a write fails and stores nothing |
| `FileCrypto.NoKeyStoresClearOnly` | core/file_crypto.py:117-119 | so over any run the files stored without a key are those written while encryption was off |
| `FileCrypto.SealedHasMagic` | core/file_crypto.py:117-119 | over any run and with any key, a file written with encryption on begins with the magic |
| `FileCrypto.OpenInvertsEnvelope` | core/file_crypto.py:91-108 | parsing inverts printing for every wrapped key shorter than 65536 bytes |
| `FileCrypto.SealThenUnseal` | core/file_crypto.py:85-114 | what was sealed unseals to its plaintext |
| `FileCrypto.PlainReadsBack` | core/file_crypto.py:101-102 | unsealed bytes read back if and only if they do not begin with the magic |
| `FileCrypto.ReadsLastWritten` | core/file_crypto.py:117-119 | after any run of switches and writes a file reads back as last written, if and only if encryption was on then or the plaintext lacks the magic |
| `FileCrypto.HeaderUnchecked` | core/file_crypto.py:96-108 | changing the version byte changes nothing, changing a magic byte makes the envelope pass for plaintext |
| `WorkspaceCache.WorkspaceContext.DefaultWorkspaceId` | core/workspace_context.py:110-128 | the cached id while good, else the query's answer, kept a minute unless there was none |
| `WorkspaceCache.WorkspaceContext.ResolveActiveWorkspaceId` | core/workspace_context.py:131-151 | the header's workspace if it is the tenant's, else the default, then the caller's own scope |
| `WorkspaceCache.NamedExactly` | core/workspace_context.py:131-151 | a header that names a workspace by number gets exactly that one if it is the tenant's and in scope, and else the refusal that applies |
| `WorkspaceCache.UnnamedExactly` | core/workspace_context.py:131-151 | without one the default is given if there is one in scope, and else the refusal that applies |
| `WorkspaceCache.DefaultIsKept` | core/workspace_context.py:110-128 | a default looked up is kept a minute, a missing one not at all, and other tenants' are left alone |
| `WorkspaceCache.KeptForAMinute` | core/workspace_context.py:110-128 | a default that was looked up is served for that minute, whatever happens to the table |
| `WorkspaceCache.FirstIsEarliest` | core/workspace_context.py:120-125 | the query gives the tenant's earliest workspace by creation and id |
| `WorkspaceCache.ServedWasEarliest` | core/workspace_context.py:110-128 | whatever happens to the table, a served default was the earliest at some moment in the last minute; none is served only when there is none |
| `WorkspaceCache.CacheIsQuery` | core/workspace_context.py:110-128 | while a tenant's own workspaces are only added later, whatever happens to other tenants', its cached default equals the query at every moment |
| `WorkspaceCache.ResolvedBelongs` | core/workspace_context.py:131-151 | the workspace a request gets is one of its tenant's, now or within the last minute |
| `PageMerge.MergePagesToFields` | routes/ocr_export_routes.py:222-247 | the nested loops equal the fold over all fields of all pages in order |
| `PageMerge.FieldsExactly` | routes/ocr_export_routes.py:229-234 | a page gives the fields of its last `fields` object, and none when that is no object |
| `PageMerge.MergeMeans` | routes/ocr_export_routes.py:222-247 | each key gets its first truthy value, else its last non-blank one, else is absent; item lists are joined in order |
| `PageMerge.MergeInParts` | routes/ocr_export_routes.py:222-247 | merging a concatenation is combining the merges of its parts |
| `PageMerge.CombineAssociative` | routes/ocr_export_routes.py:222-247 | that combination is associative |
| `PageMerge.SplitByDirection` | routes/ocr_export_routes.py:201-219 | each list is the records of its direction in their order; it crashes if and only if some record's merged fields are truthy and have no keys |
| `PageMerge.DirectionByText` | routes/ocr_export_routes.py:211-218 | a record whose merged fields say sales or income, in any case and with spaces around it, is a sale, one that says purchase or expense a purchase, and no other with a direction is either |
| `PageMerge.NoDirectionIsPending` | routes/ocr_export_routes.py:211-218 | a record that says no direction is pending, unless its merged fields are truthy and no object: then it crashes |
| `PageMerge.SplitIsPartition` | routes/ocr_export_routes.py:201-219 | the three lists together hold every object record exactly as often as it was given |

## Left out

- HTTP plumbing, request models, mail texts, CSV, XLSX and PDF output, OAuth, LINE, SMTP and slip service calls: I/O; mail and slip answers are parameters.
- Handlers that only forward to other services, admin listings, feature flags, diagnostics: one branch each.
- `get_cursor` (core/db.py:57-71): the owner login's cursor, to which no policy applies.
- `ENABLE_RLS`, the check of the role name, `existing_tables`, `ensure_no_orphan_rls` with its schema-runtime branch, `ensure_rls_app_role`, and the managed-schema variant of the shared-Express policies: set-up around what is modelled.
- Tables that are not enrolled: isolation is claimed for enrolled tables only, and for a configured `RLS_ROLE`.
- Column types of the tables: typed ids are their text form and never empty; keys are new in every insert and never rewritten; unique violations and gaps in sequences are not modelled.
- NonInterference.OthersDoNotMatter: the other tenants' users are not this tenant's. A user with two companies (core/auth.py:323-326) acts for both, and in tables kept by user its rows belong to both; a run with calls of such a user for the other company is not covered. NonInterference.TenantIsolation is not concerned: there such a user is one of the tenant's.
- Sessions: signing and verifying tokens, `entry` and `dms_binding` claims, and the switch of the active company; failures to compare times or ids, which the code lets pass, do not occur in the model.
- Topup.Billing.UploadSlip: is in the atomic model only; the handler reads pending, waits for the slip service and credits without looking again, so no interleaved claim covers it. Times and review notes of a request are not kept.
- Topup: amounts are whole satang where the code has decimals, and the one-baht comparison is made in floats there.
- `gregorian_period` (core/thai_date.py:136-153) and the substring scans over the month tables.
- ThaiDate: digits and letter case are ASCII; other Unicode digits, which the patterns accept, and case folding beyond ASCII are not modelled.
- EmailCodes, LoginLock: runs are sequential; two requests that count before either inserts can exceed a limit, and the branches that let a request through when a table cannot be read are not taken.
- `forgot_password`: its rate limit counts by the normalised address and stores the raw one; here a token is simply issued.
- PasswordReset: the two transactions of a reset are one step each; a handler serves one reset at a time.
- FileCrypto: Fernet and AES-GCM are functions with laws (decryption inverts encryption, the plaintext is no longer than the ciphertext, a wrapped key fits its length field); nothing is said about forged ciphertexts. The key does not change within a run.
- WorkspaceCache: one process; every process has its own cache and each satisfies the same.
- PageMerge: the order of keys in the merged fields.
- bcrypt: whether a password matches is a parameter; so are an account's expiry and its entrance (services/auth/entrance.py). An expiry that cannot be read is let pass in the code.
