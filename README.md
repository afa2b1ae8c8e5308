# Role-based authentication backend: a Dafny model

This project models the server side of a role-based authentication backend written for
Node.js, Express and MongoDB. It covers:

- password login with an e-mailed six-digit MFA code;
- the code's issue, resend, verification and single use;
- turning MFA on and off, and deleting an account behind a code;
- the login-failure lock and the role and permission guards;
- the fixed administrator identity;
- Google OAuth find-or-create;
- the user and trainer management routes;
- backup naming and retention;
- the audit log and error log listings;
- the audit middleware;
- report aggregation, scheduling and archiving.

## How the model is built

- The database is the class `Store.Backend`. Its fields are:
  - the users and trainers collections, as maps from an ObjectId (a `nat`) to the record;
  - the audit log collection;
  - the next id to hand out;
  - the mail outbox.
- Every route handler is a method over that store. Its `ensures` state the reply and the
  whole new state for each branch of the handler's early-return chain.
- The pure rules are functions, and the handlers' contracts are phrased with them. These
  rules are:
  - the MFA check chain, issuing a code and clearing it;
  - a failed login attempt and the reset;
  - schema validation and the pre-save hash.

  Lemmas about these functions state the properties that span several calls: single use,
  expiry, lock-out, idempotence.
- Time is an integer count of milliseconds. Report dates use a calendar `DateTime`, whose
  day and month arithmetic follows `setDate`/`setMonth`.
- Tokens are abstract signed records with an expiry. Signing and verification read the
  clock in whole seconds, as jsonwebtoken does. Verification yields the claims,
  `JsonWebTokenError` or `TokenExpiredError`.
- bcrypt is a record of the secret and the salt, compared by equality.
- `Math.random` is a nondeterministic choice in 100000..999999.
- The mail transport's outcome is an input (`delivered`).
- Other inputs:
  - shell tools and database failures are `Option<string>` error parameters;
  - date parsing is a `dateOf` function;
  - the regex route filter is a `routeMatches` function.

Modules follow the backend's files:

| module | file |
|---|---|
| `AuthRoutes` | `routes/auth.js` |
| `UserModel` | `models/User.js` |
| `AuthMiddleware` | `middleware/auth.js` |
| `MfaRoutes` | `routes/mfa.js` |
| `GoogleAuth` | `config/googleAuth.js` |
| `AdminRoutes` | `routes/admin.js` |
| `UserRoutes` | `routes/users.js` |
| `TrainerController` | `controllers/trainerController.js` |
| `BackupService` | `services/backupService.js` |
| `AuditLogController` | `controllers/auditLogController.js` |
| `ErrorLogController` | `controllers/errorLogController.js` |
| `AuditLogMiddleware` | `middleware/auditLog.js` |
| `ReportService` | `services/reportService.js` |
| `ReportModel` | `models/Report.js` |

Shared support lives in the other modules:

- `MfaCode` holds the code rules shared by both MFA routers.
- `LogQuery` holds the pagination shared by both log controllers.
- `Store`, `Jwt` and `Http` model the database, the tokens and the replies.
- `Text`, `Calendar`, `Seqs` and `Wrappers` model the JavaScript built-ins the code relies on.

Where a handler does something its own surroundings evidently do not intend, the model
keeps both versions:

- a member suffixed `AsWritten` follows the code as it stands;
- the unsuffixed member is the corrected handler, which the rest of the model uses.

See "## Findings".

Some behaviours follow the code and not the documentation, and the contracts state them
as such:

- The password login never consults or updates the failure counter. The lock is enforced
  only by `authenticateToken`: `AuthMiddleware.LockedOutAfterFiveFailures` shows what
  happens once another component has counted five failures.
- `/admin/login` compares the body with two environment variables. When both are unset, a
  request with neither field also matches.
- An expired temporary token is answered 500, not 401.
- Trainer tokens carry `id` rather than `userId`, so `authenticateToken` refuses every
  trainer session, even once the controller's model binding is corrected.
- The User schema trims the name and trims and lower-cases the email whenever they are
  assigned, and Mongoose applies the same setters to the email of a `findOne` filter.
  Lookups therefore ignore letter case and surrounding white space, and a name or email
  of white space only fails `required`.
- The administrator's user creation never sends a name. The schema requires one, so that
  creation always fails validation.

## Model

| member | source | states |
|---|---|---|
| UserModel.HashedSchema | backend/models/User.js:69-79 | validation sees the plaintext and the hook hashes afterwards, and the two orders agree: a non-empty new password passes the schema exactly when the hashed record passes it |
| UserModel.SettersOutput | backend/models/User.js:5-16 | what the setters store is in their form: the name trimmed, the email trimmed and free of capital letters |
| UserModel.SetterRecord | backend/models/User.js:5-16 | a record whose fields went through the setters is in their form, and misses a required field exactly when the input was white space only |
| UserModel.SettersAppliedMeans | backend/models/User.js:5-16 | a record is in the setters' form exactly when running them again changes neither field |
| UserModel.SettersIdempotent | backend/models/User.js:5-16 | setting a field twice stores what setting it once stores; lower-casing keeps the trimmed length |
| UserModel.HashOnlyIfModified | backend/models/User.js:69-84 | a save without a new password keeps the stored hash; one with a new password stores a hash that verifies against it; no other field changes |
| UserModel.FailuresCount | backend/models/User.js:97-103 | each failed attempt raises the counter by exactly one and touches nothing else; the lock is unchanged while the count stays below five, and from five on it is set to thirty minutes after the latest failure |
| UserModel.FiveFailuresLock | backend/models/User.js:97-103 | five failures on a fresh account lock it until exactly thirty minutes after the fifth, and no longer |
| UserModel.ResetUnlocks | backend/models/User.js:106-110 | a reset from any state sets the counter to 0 and clears the lock, so the account is unlocked at every instant; nothing else changes |
| UserModel.LockInvariantPreserved | backend/models/User.js:97-110 | the invariant that a lock is set only once the counter reached five survives both increment and reset |
| MfaCode.GenerateMfaCode | backend/routes/auth.js:69-71 | the code is six decimal digits with no leading zero, the text of a number in 100000..999999 |
| MfaCode.CodeTextShape | backend/routes/auth.js:69-71 | the text of every number in 100000..999999 is a six-digit code that denotes that number |
| MfaCode.CodesAreGenerated | backend/routes/auth.js:69-71 | a string is a valid code exactly when some draw in 100000..999999 produces it |
| MfaCode.ChallengeInvariantKept | backend/routes/auth.js:305-310 | issuing a code writes the code and its expiry together, and clearing removes both; no other field changes |
| MfaCode.CheckToggleCode | backend/routes/auth.js:487-506 | the enable/disable chain never reports a missing code separately: a missing code counts as expired |
| MfaCode.AcceptedIff | backend/routes/auth.js:370-392 | a code is accepted exactly when one is stored, now ≤ its expiry and it equals the supplied code; the enable/disable chain accepts exactly the same codes |
| MfaCode.IssuedCodeLifecycle | backend/routes/auth.js:395-410 | a freshly issued code is accepted exactly while now ≤ issue time + lifetime and the supplied code equals it; once cleared, every further check answers "no code" (single use) |
| MfaCode.ReissueSupersedes | backend/routes/auth.js:305-310 | after a resend, an earlier code is accepted only if the new draw happened to repeat it |
| MfaCode.StrictAndInclusiveChecks | backend/routes/mfa.js:15-18 | the older router's strict test (expiry > now) implies the newer one's acceptance; the two differ only when now equals the expiry |
| MfaCode.BoundaryDisagreement | backend/routes/mfa.js:15-18 | at the exact expiry instant the newer check accepts the code and the older router's strict check refuses it |
| AuthRoutes.SignupSchema | backend/routes/auth.js:117-123 | a signup record that passed the route's own checks fails the schema exactly when its role lies outside {user, admin} or its name or email is white space only (the route tests the raw fields, `required` the trimmed ones); the hashed record is then a stored one |
| AuthRoutes.EmailAddressTrimmed | backend/routes/auth.js:85-88 | an address the signup pattern accepts holds no white space, so trimming leaves it alone and its stored form is not empty |
| AuthRoutes.AdminLogin | backend/routes/auth.js:13-66 | matching environment credentials give a 24-hour admin token and a success audit; any mismatch gives 401 and a failure audit for 'unknown' |
| AuthRoutes.Signup | backend/routes/auth.js:74-166 | refusals in order, each before any write: missing field, malformed address, password under six characters, role admin; an existing email gives 400 and a failure audit; a role outside the enumeration or a blank name fails validation after the id is drawn; otherwise one record with the trimmed name, the trimmed lower-cased email, permissions read and write and a hashed password is created, with a 24-hour token |
| AuthRoutes.SignupChecked | backend/routes/auth.js:101-165 | after the request checks: an email that any stored address equals once trimmed and lower-cased gives 400 and a failure audit with no write; a role outside {user, admin} or a blank name fails validation after the id is drawn; otherwise the hashed record is stored under a fresh id, audited with its stored email, and a 24-hour token for it is returned |
| AuthRoutes.CreateSignupUser | backend/routes/auth.js:117-157 | for an address not yet registered: the id is drawn; validation failure answers 400 with nothing stored or audited; otherwise the hashed record is stored, audited and answered with a 24-hour token |
| AuthRoutes.SaveSignupRecord | backend/routes/auth.js:117-125 | the save succeeds exactly for a role in the enumeration and a name that is not blank, and then stores exactly the hashed signup record under the fresh id |
| AuthRoutes.IssueCodeTo | backend/routes/auth.js:305-310 | a six-digit code and its expiry are written onto the stored record and nothing else changes |
| AuthRoutes.Login | backend/routes/auth.js:169-288 | the lookup matches the stored address equal to the trimmed, lower-cased query; an unknown email and a wrong password both give 401 'Invalid credentials'; MFA off gives a 24-hour token with the code fields untouched; MFA on stores a code expiring in 30 minutes, mails it and returns a 30-minute temporary token; a failed mail gives 500 with the code stored |
| AuthRoutes.LoginChallenge | backend/routes/auth.js:206-250 | a six-digit code expiring in 30 minutes is stored on the record, mailed, and answered with a temporary token of the same lifetime; a failed mail gives 500 with the code kept and no audit entry |
| AuthRoutes.ResendMfa | backend/routes/auth.js:291-354 | any token that verifies and names a stored user gets a new 15-minute code; JsonWebTokenError gives 401 INVALID_TEMP_TOKEN and every other failure 500, with no change |
| AuthRoutes.VerifyMfa | backend/routes/auth.js:357-445 | the check chain maps to NO_MFA_CODE, CODE_EXPIRED or INVALID_CODE with no change; on acceptance both code fields are cleared and a 7-day token is issued |
| AuthRoutes.SendCode | backend/routes/auth.js:448-474 | a stored caller gets a 15-minute code written and mailed, whatever its MFA state; a missing caller gives 404 and a failed cast 500, with no change |
| AuthRoutes.SetupMfa | backend/routes/auth.js:448-474 | issues a 15-minute code to the caller and mails it; the reply carries the expiry |
| AuthRoutes.RequestDisableMfa | backend/routes/auth.js:532-558 | issues a 15-minute code to the caller exactly as setup does |
| AuthRoutes.ToggleMfa | backend/routes/auth.js:477-529 | a missing or expired code gives 400 CODE_EXPIRED and a mismatch 400 INVALID_CODE, with no change; on acceptance mfaEnabled takes the requested value and both code fields are cleared |
| AuthRoutes.VerifyAndEnableMfa | backend/routes/auth.js:477-529 | acceptance sets mfaEnabled true and clears the code; refusal changes nothing |
| AuthRoutes.VerifyAndDisableMfa | backend/routes/auth.js:561-613 | acceptance sets mfaEnabled false and clears the code; refusal changes nothing |
| AuthRoutes.GetMfaStatus | backend/routes/auth.js:616-631 | replies with the stored mfaEnabled flag, 404 for a missing user |
| AuthRoutes.DeleteAccount | backend/routes/auth.js:634-701 | with MFA on, a missing body code gives MFA_REQUIRED before the stored code is read; the record is removed only after the full check accepts; an MFA-off account is removed with no code |
| AuthRoutes.RequestDeleteMfa | backend/routes/auth.js:777-819 | gives 400 when MFA is off; otherwise a 15-minute code is issued, mailed and audited |
| AuthRoutes.GoogleCallback | backend/routes/auth.js:708-775 | the login is audited; MFA off redirects with a session token; MFA on issues a 15-minute code and redirects to verification, or to the failure page when the mail fails |
| AuthMiddleware.BearerToken | backend/middleware/auth.js:9-10 | the token is the second space-separated field of the header; it is non-empty and holds no space |
| AuthMiddleware.AuthenticateTokenPasses | backend/middleware/auth.js:7-50 | a request passes exactly when: a bearer token is present and verifies; its claims are the fixed admin, or name a record of the store its role selects; and any lock on that record has passed. The passed claims are the token's |
| AuthMiddleware.MissingBearerIs401 | backend/middleware/auth.js:12-14 | a header without a second field gives 401, whatever the stores hold |
| AuthMiddleware.FixedAdminBypassesStore | backend/middleware/auth.js:19-22 | claims with userId 'admin' and role 'admin' pass with both stores empty |
| AuthMiddleware.RefusalStatuses | backend/middleware/auth.js:32-49 | once a token is present, every refusal is 403 except a missing record (404); any verification error gives 403 'Invalid token' |
| AuthMiddleware.TrainerTokensAreRefused | backend/middleware/auth.js:25-34 | a trainer token, which carries no userId, is refused with 404 |
| AuthMiddleware.LockedOutAfterFiveFailures | backend/middleware/auth.js:37-42 | after five failures a user's valid token is refused with 403 until thirty minutes after the fifth |
| AuthMiddleware.IsAdminGuard | backend/middleware/auth.js:52-68 | passes exactly the claims with role admin; no user gives 401, any other role 403 |
| AuthMiddleware.CheckRole | backend/middleware/auth.js:70-88 | passes exactly when the role is present, non-empty and in the list; every refusal is 403 |
| AuthMiddleware.HoldsAllMeansEvery | backend/middleware/auth.js:99-106 | the `every` check holds exactly when each requested permission is in the record's list, so an empty request always holds |
| AuthMiddleware.CheckPermissionPasses | backend/middleware/auth.js:90-114 | a stored caller passes exactly when it holds every requested permission; the fixed admin, which has no record, gets 500 |
| MfaRoutes.ConsumeStrictCode | backend/routes/mfa.js:15-36 | some user whose code matches and whose expiry is strictly after now has both code fields cleared and a success audit; when no user qualifies, the failure is audited for 'unknown' and no record changes |
| MfaRoutes.VerifyAsWritten | backend/routes/mfa.js:8-72 | no qualifying user gives 401, no record changes and a failure entry for 'unknown' is audited; a correct code is consumed, its success is audited, and the reply is 500 |
| MfaRoutes.Verify | backend/routes/mfa.js:8-72 | no qualifying user gives 401, no record changes and a failure entry for 'unknown' is audited; a correct code is consumed, its success is audited, and the reply is a 24-hour token for its owner |
| MfaRoutes.VerifyScenario | backend/routes/mfa.js:48-53 | one correct code sent twice: as written the first call gives 500 and the second 401; the corrected handler answers 200 |
| MfaRoutes.Enable | backend/routes/mfa.js:75-104 | with no req.user or an id that does not cast, 500 and no change; a missing user gives 404 and no change; otherwise mfaEnabled is set true with no code check and a success entry is audited |
| MfaRoutes.Disable | backend/routes/mfa.js:107-138 | with no req.user or an id that does not cast, 500 and no change; a missing user gives 404 and no change; otherwise mfaEnabled is set false, both code fields are cleared together and a success entry is audited |
| GoogleAuth.MergedKeepsExisting | backend/config/googleAuth.js:16-29 | a googleId or name already set is never overwritten; an absent one takes the profile's; nothing else changes |
| GoogleAuth.GoogleRecordValid | backend/config/googleAuth.js:32-43 | a new OAuth user has role user, permissions [read], MFA off, no failures and no password; it passes the schema exactly when the profile id is non-empty and neither the display name nor the email is white space only, and is then a stored record |
| GoogleAuth.MergedSettersApplied | backend/config/googleAuth.js:16-29 | filling in the googleId and the trimmed display name keeps a record in the setters' form |
| GoogleAuth.UpdateExisting | backend/config/googleAuth.js:16-29 | the merged record is saved exactly when the schema accepts it and no unique key clashes; otherwise nothing changes |
| GoogleAuth.CreateFromProfile | backend/config/googleAuth.js:32-43 | the new record under a fresh id is stored exactly when the schema accepts it and no unique key clashes; otherwise nothing is stored |
| GoogleAuth.FindOrCreate | backend/config/googleAuth.js:13-55 | the lookup uses the first profile email, trimmed and lower-cased; an existing user is merged in place; otherwise one record is created; a profile without emails is an error with no change |
| AdminRoutes.AdminGuardPasses | backend/routes/admin.js:16-33 | the guard passes exactly the fixed admin claims and stored users with role admin; every other caller is stopped |
| AdminRoutes.AdminLogin | backend/routes/admin.js:36-99 | succeeds exactly for the two fixed constants, with a 24-hour token whose claims are userId admin and role admin; any other pair gives 401 and a failure audit for 'unknown' |
| AdminRoutes.Dashboard | backend/routes/admin.js:102-115 | 200 exactly for role admin, 403 'Access denied. Admin only.' otherwise |
| AdminRoutes.UpdateRole | backend/routes/admin.js:209-230 | a role other than user or admin gives 400 before any lookup; a missing user gives 404; otherwise only the role changes |
| AdminRoutes.UpdatePermissions | backend/routes/admin.js:233-254 | a non-array gives 400 before any lookup; a missing user gives 404; otherwise the list is replaced wholesale, and a value outside the permission enumeration makes the save fail with 500 and no change |
| UserRoutes.UpdateProfile | backend/routes/users.js:33-61 | a truthy email is assigned trimmed and lower-cased, and a blank or taken one makes the save fail with 500 and no change; a password change happens only with both passwords supplied and the current one verifying; a wrong current password gives 401 and saves nothing, not even the email |
| UserRoutes.CreatedRecord | backend/routes/users.js:73-78 | the record the administrator's create builds carries no name |
| UserRoutes.CreateUser | backend/routes/users.js:64-87 | an email already stored, up to case and surrounding white space, gives 400; otherwise the nameless record fails validation, and the reply is 500 with no user stored |
| UserRoutes.AdminUpdateUser | backend/routes/users.js:90-110 | role, permissions and lockedUntil are overwritten only when each is supplied; a missing user gives 404 with no change |
| UserRoutes.AdminDeleteUser | backend/routes/users.js:113-127 | a missing user gives 404 with no change; otherwise exactly that record is removed |
| TrainerController.TrainerPassword | backend/controllers/trainerController.js:18-24 | a supplied password is stored as a hash that verifies against it |
| TrainerController.TrainerLoginOutcomes | backend/controllers/trainerController.js:110-154 | a login succeeds exactly for an active trainer whose password verifies, with a 24-hour token claiming {id, role}; an unknown email and a wrong password give the same 401; an inactive account is refused before the password is checked |
| TrainerController.CreateTrainerAsWritten | backend/controllers/trainerController.js:1-39 | as written, `Trainer.findOne` is undefined on the export object: every request answers 500 'Error creating trainer' and nothing changes (no modifies clause) |
| TrainerController.LoginTrainerAsWritten | backend/controllers/trainerController.js:110-154 | as written, every login answers 500 'Error during login' |
| TrainerController.UpdateTrainerAsWritten | backend/controllers/trainerController.js:65-94 | as written, every request answers 500 'Error updating trainer' and nothing changes |
| TrainerController.DeleteTrainerAsWritten | backend/controllers/trainerController.js:97-107 | as written, every request answers 500 'Error deleting trainer' and nothing changes |
| TrainerController.UpdateTrainerPasswordAsWritten | backend/controllers/trainerController.js:170-193 | as written, every request answers 500 'Error updating password' and nothing changes |
| TrainerController.AsWrittenRefusesEveryLogin | backend/controllers/trainerController.js:1-154 | an active trainer with the right password, whom the intended binding lets in with 200, gets 500 as written; no caught reply equals a reply the intended login gives |
| TrainerController.TrainerSessionRefused | backend/controllers/trainerController.js:132-139 | with the intended binding, the token a successful trainer login returns is refused by authenticateToken with 404 while the whole-second clock is before its `exp`, since its claims carry `id` and no `userId` |
| TrainerController.CreateTrainer | backend/controllers/trainerController.js:7-39 | an email already present gives 400 with no change; otherwise exactly one new active trainer with role trainer and a hashed password is stored under a fresh id; so trainer emails that were distinct stay distinct |
| TrainerController.LoginTrainer | backend/controllers/trainerController.js:110-154 | the decision is the login chain applied to some trainer holding the email |
| TrainerController.UpdateTrainer | backend/controllers/trainerController.js:65-94 | name and email are overwritten only when truthy and isActive only when given; all else is unchanged; a missing trainer gives 404 |
| TrainerController.DeleteTrainer | backend/controllers/trainerController.js:97-107 | a missing trainer gives 404 with no change; otherwise exactly that trainer is removed |
| TrainerController.UpdateTrainerPassword | backend/controllers/trainerController.js:170-193 | the password changes only after the current one verifies; otherwise 401 and no change |
| BackupService.BackupNameShape | backend/services/backupService.js:26-27 | every generated name passes the listing filter and is 34 characters long, or 37 for a year past 9999 written in the expanded `+YYYYYY` form; between 'backup-' and '.gz' it is the ISO text of the date with every ':' and '.' replaced by '-' |
| BackupService.Listed | backend/services/backupService.js:127-137 | the listing keeps exactly the names starting 'backup-' and ending '.gz', each with its modification time |
| BackupService.SortedListingDistinct | backend/services/backupService.js:124-139 | a sorted listing built from a directory names each file at most once |
| BackupService.OldBackupsArePrefix | backend/services/backupService.js:175-181 | in the oldest-first list, the backups older than the cutoff form a prefix and all later ones are within retention |
| BackupService.SortedListing | backend/services/backupService.js:163-175 | the sorted list holds exactly the backup files of the directory, with their times |
| BackupService.CleanupEffect | backend/services/backupService.js:175-195 | the corrected cleanup deletes exactly the backups older than 30 days, then the oldest of the rest beyond ten; the newest min(remaining, 10) survive, all within retention |
| BackupService.CleanupAsWrittenEffect | backend/services/backupService.js:189-195 | as written, with no old backups it equals the corrected cleanup; with old backups only those go, and with more than ten recent ones all of the recent ones survive |
| BackupService.NewestBackupKept | backend/services/backupService.js:161-202 | the newest backup always survives the corrected cleanup |
| BackupService.NewestBackupKeptAsWritten | backend/services/backupService.js:161-202 | the newest backup also survives the cleanup as written: with no old backup it is the corrected cleanup, otherwise only the old ones go |
| BackupService.BackupDir.UnlinkEach | backend/services/backupService.js:183-185 | unlinks the names in order and stops at the first that is not there |
| BackupService.BackupDir.UnlinkRange | backend/services/backupService.js:191-193 | the counter loop unlinks `backups[from..from+count]` in order, stopping at the first failure |
| BackupService.BackupDir.ListBackups | backend/services/backupService.js:124-154 | a `readdirSync` error is returned as the failure result with its message; otherwise every backup file of the directory is returned once, newest first, each with its modification time |
| BackupService.BackupDir.CleanupAsWritten | backend/services/backupService.js:161-202 | the directory becomes the as-written retention result of some directory listing; no error escapes |
| BackupService.BackupDir.Cleanup | backend/services/backupService.js:161-202 | the directory becomes the corrected retention result of some directory listing; no error escapes |
| BackupService.BackupDir.CreateBackup | backend/services/backupService.js:24-67 | an unset MONGODB_URI or a failed dump gives a failure result and no new file; success adds the named archive stamped now, runs the cleanup as written on the listing, and reports the archive exactly when it survived |
| BackupService.BackupDir.CreateBackupCorrected | backend/services/backupService.js:24-67 | the same with the corrected cleanup |
| BackupService.BackupDir.RestoreBackup | backend/services/backupService.js:75-117 | a missing file, then an unset URI, give failure results before any tool runs; otherwise the tool's outcome is returned |
| BackupService.CreatedBackupReported | backend/services/backupService.js:24-67 | a fresh backup newer than every other file survives the cleanup that follows it, as written and corrected, so createBackup reports success for it |
| LogQuery.NumberOrMeaning | backend/controllers/auditLogController.js:7-8 | the default is taken exactly for a missing, non-numeric or zero parameter, or one that parses to the default itself; the result is never 0 |
| LogQuery.NumberOrDecimal | backend/controllers/auditLogController.js:7-8 | a positive parameter written in decimal, up to `Number.MAX_SAFE_INTEGER`, is read back as its value; '0' takes the default |
| LogQuery.TotalPages | backend/controllers/auditLogController.js:54 | for a positive limit, the number of pages is the least r with r·limit ≥ total (the ceiling) |
| LogQuery.Window | backend/controllers/auditLogController.js:42-45 | skip and limit cut the contiguous run of the ordered result starting at skip, of the limited length |
| LogQuery.PagesCover | backend/controllers/auditLogController.js:9 | with a positive limit, every document lies on exactly one page no later than the last, at its offset from (page−1)·limit |
| LogQuery.EndOfDayMeaning | backend/controllers/auditLogController.js:30-34 | a time is at or before the moved end bound exactly when it falls on or before that day |
| LogQuery.WindowOfFilter | backend/controllers/auditLogController.js:39-45 | every document of a page passes the query and comes from the collection, and the page is newest first |
| AuditLogController.BuildQuery | backend/controllers/auditLogController.js:12-36 | each filter is in the query exactly when supplied; the date bound is present iff either date is given; the query selects exactly the entries the request describes |
| AuditLogController.List | backend/controllers/auditLogController.js:5-66 | a database failure gives 500 with its message; otherwise the reply holds the page of matching entries, newest first, with total and ⌈total/limit⌉ |
| AuditLogController.GetAuditLogs | backend/controllers/auditLogController.js:5-66 | a database failure gives 500 'Error fetching audit logs'; a negative skip gives 500; otherwise the page is exactly the window at (page−1)·limit of the selected entries newest first, with total, page, limit and ⌈total/limit⌉ |
| AuditLogController.GetUserAuditLogs | backend/controllers/auditLogController.js:68-122 | the same exact page, total and page count over the entries of the user of the path, so every listed entry belongs to that user |
| Store.AuditRecord | backend/controllers/auditLogController.js:124-142 | createAuditLog stores exactly one entry when userId, userEmail and action are present and the status is in the enumeration, and otherwise stores nothing; it never throws |
| Store.Backend.CreateAuditLog | backend/controllers/auditLogController.js:124-142 | the audit collection grows by exactly that record and nothing else changes |
| ErrorLogController.ErrorRecordDefaults | backend/controllers/errorLogController.js:7-20 | a missing message becomes 'Unknown error occurred', the level 'error', and each request field 'unknown' |
| ErrorLogController.ErrorRecordAsWritten | backend/controllers/errorLogController.js:4-43 | at most one entry is stored, and only when the userId casts to an ObjectId |
| ErrorLogController.ErrorRecord | backend/controllers/errorLogController.js:4-43 | at most one entry is stored, with no userId for an unidentified user |
| ErrorLogController.AnonymousErrorsDropped | backend/controllers/errorLogController.js:15 | as written, an error with no identified user is never stored; corrected, it is stored; the two agree whenever a real id is present |
| ErrorLogController.ErrorLogs.CreateErrorLogAsWritten | backend/controllers/errorLogController.js:4-43 | the collection grows by the as-written record and a refused save is swallowed |
| ErrorLogController.ErrorLogs.CreateErrorLog | backend/controllers/errorLogController.js:4-43 | the collection grows by the corrected record and a refused save is swallowed |
| ErrorLogController.BuildQuery | backend/controllers/errorLogController.js:58-84 | each filter is present iff supplied; the method is upper-cased; the start and end dates are independent bounds; the query selects exactly the entries the request describes |
| ErrorLogController.MethodFilterIgnoresCase | backend/controllers/errorLogController.js:82-84 | a method filter selects the same entries in whatever case it is written |
| ErrorLogController.FailureReply | backend/controllers/errorLogController.js:122-142 | 'Query timeout' gives 504; a Mongoose buffering timeout gives 503; everything else gives 500 with the message |
| ErrorLogController.GetErrorLogs | backend/controllers/errorLogController.js:45-144 | a failure maps through the status rules; otherwise the reply holds the page of matching entries, newest first, skip (page−1)·limit, and the ceiling of total/limit |
| AuditLogMiddleware.ActionForIsTable | backend/middleware/auditLog.js:14-29 | a path has an action exactly when it equals one of the seven listed paths, and the action is that path's |
| AuditLogMiddleware.Decide | backend/middleware/auditLog.js:6-32 | paths under '/api/audit-logs' are skipped; every other path is recorded under its table action, or produces nothing when it has none |
| AuditLogMiddleware.ListedPathsRecorded | backend/middleware/auditLog.js:6-29 | none of the seven audited paths is hidden by the skip rule |
| AuditLogMiddleware.RequestRecordRefused | backend/middleware/auditLog.js:32-49 | the document the middleware builds lacks the required userEmail, so the schema refuses it |
| AuditLogMiddleware.AuditAsWritten | backend/middleware/auditLog.js:1-55 | next runs exactly once and nothing is ever stored |
| AuditLogMiddleware.Audit | backend/middleware/auditLog.js:3-55 | next runs exactly once; an audited path appends what the schema accepts from its document, which RequestRecordRefused shows is nothing; other paths leave the log unchanged |
| AuditLogMiddleware.AuditIntended | backend/middleware/auditLog.js:3-55 | with the model bound, the id read from `userId` and `userEmail` supplied (each 'unknown' when absent), next runs exactly once, every audited path appends exactly one entry with its action and details, and other paths leave the log unchanged |
| ReportService.GroupByPartition | backend/services/reportService.js:168-174 | the group keys are distinct and are exactly the keys of the items; each group holds exactly the items of its key, in order; group sizes sum to the input length |
| ReportService.GroupOfItem | backend/services/reportService.js:168-174 | an item lies in a group exactly when its key is that group's key, so it lies in exactly one group |
| ReportService.HourOf | backend/services/reportService.js:178 | the hour of an instant is in 0..23 |
| ReportService.TimeDistributionCounts | backend/services/reportService.js:176-182 | an hour is a key exactly when some event falls in it, its count is the number of such events, and the counts sum to the number of events |
| ReportService.Query | backend/services/reportService.js:46-56 | the query returns the selected events newest first, each exactly as often as it is stored, so its length is the number of stored matching documents |
| ReportService.EventTypeReplacesSet | backend/services/reportService.js:74-79 | with an event type given, an event in the date range is selected exactly when it has that type, whatever the fixed set says |
| ReportService.ActivityGroupsAsWritten | backend/services/reportService.js:44-66 | over `AuditLog` documents, which carry no `eventType` and a plain-string `userId`, every selected activity lands in the one group 'undefined', both by type and by user |
| ReportService.UserActivityTotals | backend/services/reportService.js:44-66 | totalActivities equals the number of selected events; the per-action and per-user groups each have distinct keys, hold exactly the selected events of their key in order, and add up to the total; the hour counts add up to it too |
| ReportService.SecurityAuditTotals | backend/services/reportService.js:68-90 | totalEvents equals the number of selected events; the per-type groups have distinct keys and hold exactly the selected events of their type in order; failedLoginAttempts is the size of the failed_login group, and 0 when another type was asked for |
| ReportService.FailedLoginMembers | backend/services/reportService.js:87 | filtering on 'failed_login' counts the 'failed_login' group |
| ReportService.ReportDataFor | backend/services/reportService.js:11-26 | data is produced exactly for the four known report types |
| ReportService.NewReportValid | backend/services/reportService.js:29-35 | the document generateReport builds passes the schema exactly when it names who generated it |
| ReportService.GenerateReportAsWritten | backend/services/reportService.js:7-42 | an unknown type fails with 'Invalid report type'; every known type fails validation; nothing is stored |
| ReportService.GenerateReport | backend/services/reportService.js:7-42 | an unknown type fails with nothing stored; a known type stores and returns one report with its data, status generated |
| ReportService.ExportReport | backend/services/reportService.js:116-121 | succeeds exactly for format 'pdf', with the report; otherwise fails 'Unsupported export format' |
| ReportModel.NextGeneration | backend/models/Report.js:108-131 | no date exactly when no frequency is set; a known frequency gives a valid date strictly after now |
| ReportModel.NextGenerationDays | backend/models/Report.js:112-117 | daily is the next calendar day; weekly is seven calendar days on (the day number grows by 7); both keep the time of day |
| ReportModel.NextGenerationMonthly | backend/models/Report.js:118-120 | monthly lands on the same day of the next month when that day exists |
| ReportModel.NextGenerationQuarterly | backend/models/Report.js:121-123 | quarterly lands on the same day three months on when that day exists |
| ReportModel.NextGenerationYearly | backend/models/Report.js:124-126 | yearly is twelve months on |
| ReportModel.StatusUpdatedEffect | backend/models/Report.js:98-105 | the status always becomes the new one; only 'generated' also sets lastGenerated to now and nextGeneration to the computed date; nothing else changes |
| ReportModel.ArchivedExactly | backend/models/Report.js:84-95 | exactly the reports older than the cutoff and not yet archived change, and only their status; archiving twice equals once |
| ReportModel.ScheduledReports | backend/models/Report.js:76-81 | returns exactly the scheduled reports whose next generation is not after now |
| ReportModel.ReportsByTypeAndDateRange | backend/models/Report.js:65-73 | returns exactly the reports of the type generated within the inclusive range, newest first |
| ReportModel.ReportCollection.Insert | backend/models/Report.js:3-60 | a save stores the document exactly when it passes the schema |
| ReportModel.ReportCollection.UpdateStatus | backend/models/Report.js:98-105 | the updated document is saved exactly when it passes the schema; otherwise the collection is unchanged |
| ReportModel.ReportCollection.ArchiveOldReports | backend/models/Report.js:84-95 | every report generated before now − daysOld (default 90) and not yet archived is archived; the count of modified documents is returned |
| ReportModel.ArchiveAll | backend/models/Report.js:84-95 | the pass over the collection returns exactly the archived collection and the number of reports it changed |
| Calendar.AddDays | backend/models/Report.js:112-117 | `setDate(getDate() + n)` keeps a valid date and the time of day, and moves strictly later for n > 0 |
| Calendar.AddDaysNumber | backend/models/Report.js:86 | `setDate(getDate() + n)` moves the calendar day number by exactly n, so the archive cutoff lies daysOld calendar days before now and strictly earlier; only a date before the year 0 is cut off at its first day |
| Calendar.AddMonths | backend/models/Report.js:118-123 | `setMonth(getMonth() + k)` keeps a valid date and moves strictly later for k > 0, rolling an overlong day into the next month |
| Calendar.AddMonthsDay | backend/models/Report.js:118-126 | adding months keeps the day of the month when the target month has it; adding twelve months equals `setFullYear(+1)` |
| Jwt.SignThenVerify | backend/middleware/auth.js:16 | with `iat` and the clock both floored to whole seconds, a signed token yields its claims exactly while the clock is before `iat` plus the lifetime, and TokenExpiredError after, never JsonWebTokenError |
| Jwt.WholeSecondLifetime | backend/middleware/auth.js:16 | for a whole-second lifetime, a token is valid exactly before `iat` plus the lifetime; that instant lies 0 to 999 ms before the issue time plus the lifetime |
| Text.SplitJoin | backend/middleware/auth.js:10 | splitting on a separator loses nothing: joining the fields restores the string, and no field holds the separator |
| Text.ToUpperIdempotent | backend/controllers/errorLogController.js:83 | upper-casing twice equals once, and leaves no lower-case ASCII letter |
| Text.ParseIntDecimal | backend/controllers/auditLogController.js:7-8 | `parseInt(String(n))` is n for every non-negative n up to `Number.MAX_SAFE_INTEGER` |
| Text.ParseIntNonNumeric | backend/controllers/auditLogController.js:7-8 | a string whose first non-blank character is neither a sign nor a digit parses to NaN (no number) |
| Text.ReplaceCharsClears | backend/services/backupService.js:26 | replacing by a character outside the set leaves none of the set, keeps every other character in its place, and a second replacement changes nothing |
| Text.TrimMeaning | backend/models/User.js:8 | what `trim` removes is white space at the two ends only: the result is a contiguous piece of the string with only white space around it |
| Text.TrimShape | backend/models/User.js:8 | the trimmed string is no longer than the input and has white space at neither end |
| Text.TrimmedMeans | backend/models/User.js:8 | `trim` leaves a string alone exactly when neither end is white space |
| Text.LoweredMeans | backend/models/User.js:15 | `toLowerCase` leaves a string alone exactly when it has no capital letter |
| Text.LowerTrimmed | backend/models/User.js:14-15 | lower-casing a trimmed string keeps it trimmed and leaves no capital |
| Text.TrimLowerIdempotent | backend/models/User.js:14-15 | trimming twice is trimming once, a trimmed lower-cased string needs no trimming, and lower-casing twice is lower-casing once |
| Text.ParseIntPlain | backend/controllers/auditLogController.js:7-8 | a string starting with a decimal digit and no `0x` prefix parses to the value of its leading digit run, when that value is at most `Number.MAX_SAFE_INTEGER` |
| Store.IdTextInjective | backend/routes/auth.js:129 | distinct ObjectIds have distinct texts, so audit entries name users unambiguously |
| Store.UserWithEmail | backend/models/User.js:10-16 | `findOne({ email })` finds a record exactly when some stored email equals the query trimmed and lower-cased, and finds such a record |
| Store.LookupIgnoresCase | backend/models/User.js:10-16 | two queries with the same trimmed, lower-cased form find the same user |
| Store.EmailOwnerUnique | backend/models/User.js:13 | while emails are unique, two records with the same email are the same record |
| Store.UniqueUpToCase | backend/models/User.js:13-15 | with the setters applied, two addresses differing only in case and surrounding white space never belong to two records |
| Store.FreshRecordStored | backend/models/User.js:4-66 | a record without a pending code or failed attempts is a stored one exactly when the schema accepts it |
| Store.Backend.FindUserByEmail | backend/models/User.js:10-16 | returns the stored record whose email is the query after the setters, or none exactly when no record has it |
| Store.UniqueAfterWrite | backend/models/User.js:4-66 | writing a record that clashes with no other keeps email and googleId unique across the collection |
| Store.Backend.SaveUser | backend/models/User.js:4-79 | for a record whose fields went through the setters, a save succeeds exactly when the schema accepts the record and no unique key clashes; it then stores the pre-save hashed record, and otherwise changes nothing |
| Store.Backend.IncrementLoginAttempts | backend/models/User.js:97-103 | the stored record becomes the record after one more failure |
| Store.Backend.ResetLoginAttempts | backend/models/User.js:106-110 | the stored record becomes the reset record |

## Left out

- Network and process I/O: HTTP transport, the SMTP mailer, `exec` of mongodump and
  mongorestore, and file system calls. Each appears only through its outcome as an
  input: `delivered`, `dump`, `restore`, `failure`, and the directory map of
  `BackupService.BackupDir`.
- jsonwebtoken and bcrypt internals. A token is an abstract signed record. Its `iat` and
  `exp` are kept in milliseconds, floored to whole seconds as jsonwebtoken does. A hash
  is the secret and its salt. Edge cases such as `jwt.verify` on a malformed string collapse
  to `JsonWebTokenError`.
- `Math.random` is a nondeterministic choice. No distribution is modelled.
- Time zones and daylight saving. Dates are read in one fixed zone.
  - `HourOf` splits the millisecond clock into days of 24 hours.
  - `LogQuery.EndOfDay` takes the day of an instant the same way.
- Calendar.AddDays: dates before the year 0 are not modelled, since the year is a
  natural number. Going back past 1 January of the year 0 stops there
  (Calendar.AddDaysNumber).
- `new Date(string)` parsing. It is the `dateOf` function parameter, and an invalid date
  string is not modelled separately.
- The `$regex` route filter is the abstract `routeMatches` predicate.
- MongoDB's order among equal sort keys is not modelled. The listings are stated up to
  the chosen stable sort.
- A NaN or negative skip in `getErrorLogs` is modelled as a database error answered 500.
- The message MongoDB gives for a negative skip is not modelled. The audit log listings answer it with the placeholder text `AuditLogController.NEGATIVE_SKIP_ERROR`.
- `getErrorLogById`, `getAllTrainers`, `getTrainerById`, `getTrainerProfile`, the read-only
  user and admin listing routes, `/logs/audit` and `/logs/error` of the admin router, and
  `Report.export`. These are reads that decide nothing.
- The Trainer model file is not part of the sources. `Store.Trainer` assumes only what the
  controller and `middleware/auth.js` show: a hashed password, role 'trainer' and
  `isActive` true by default, and that the file exports `{ Trainer }` as every other model
  file does. No required field, setter or unique index is assumed, so a trainer save
  never fails.
- TrainerController.CreateTrainer: a refusal of `trainer.save()` by a schema rule or a
  unique index, answered 500, is not modelled, because the Trainer schema is not known;
  the only uniqueness stated is the one the handler's own `findOne` check gives.
- TrainerController.UpdateTrainer: likewise, a save refused by the unknown Trainer schema
  (an email already taken, if the field is unique) is not modelled; the save always
  succeeds.
- TrainerController.UpdateTrainerPassword: likewise, a save refused by the unknown Trainer
  schema is not modelled.
- TrainerController.LoginTrainer: which trainer `findOne` returns when several share an
  email is not modelled; the decision is stated for some trainer holding the email.
- TrainerController.DeleteTrainer: `findByIdAndDelete` is modelled as lookup then
  removal, with no concurrent writer in between.
- Text.ParseInt returns the exact integer its digits denote. JavaScript's `parseInt`
  returns a double, so runs past 2^53 are rounded. The lemmas that read a value back
  (Text.ParseIntPlain, Text.ParseIntDecimal, LogQuery.NumberOrDecimal) are stated up to
  `Number.MAX_SAFE_INTEGER`. That bound also keeps `String(n)` in plain decimal rather
  than exponent notation, which JavaScript uses from 1e21 on. Text.Decimal does not model
  exponent notation.
- `AuthRoutes.Signup`: the six-character password minimum counts characters (code
  points), while JavaScript's `length` counts UTF-16 code units, so a password with
  characters outside the Basic Multilingual Plane can be refused by the model and
  accepted by the source.
- `user.hasRole` is not modelled: no modelled route calls it, and it is the comparison
  `role === r`.
- Text.ToUpper and Text.ToLower change only the ASCII letters. The full Unicode case
  mapping of `toUpperCase` and `toLowerCase` is not modelled, so a stored email with
  non-ASCII capitals is compared as given.
- `Store.Backend.CreateAuditLog`: the audit entry's ipAddress and userAgent are not
  stored. The caller supplies status explicitly rather than taking the 'success' default.
- Audit `details` passed as `JSON.stringify(...)` are an abstract string.
- `BackupService.BackupDir.CreateBackup`: a partial archive left after a failed dump is
  not modelled.
- `BackupService.BackupDir.RestoreBackup`: `path.join` of a name holding '..' is not
  modelled; the name is looked up as given.
- `BackupService.BackupDir.ListBackups`: a `statSync` failure inside the map (a file
  removed between the directory read and the stat) is not modelled; a `readdirSync`
  failure is the `readError` input.
- `scheduleReport` is not modelled. It builds a report with neither `data` nor
  `generatedBy`, and `Report` requires both, so it can only fail validation, like
  generateReport as written.
- The PDF rendering of `exportReport` is not modelled. Neither are the constant payloads
  of the system performance and compliance collectors; they are fixed values in
  `ReportDataFor`.
- Report events: the audit log schema has no `eventType` field, and its `userId` is a
  string. The reports therefore read an abstract `Event` record, whose type and user
  email may be absent. What the as-written grouping makes of real `AuditLog` documents
  is under "## Findings". `populate`, and how the security query's `eventType` filter
  treats a path the schema does not declare, are not modelled.
- `ReportModel.ReportCollection.UpdateStatus`: the in-memory document mutated before a
  refused save is not modelled; only the stored collection is.
- `UserModel.FailuresCount` and the counters: nothing in the modelled routes calls
  `incrementLoginAttempts`. The property is stated on the record functions and the
  store methods only.
- Express wiring: mounting, middleware order and `express-session`/passport
  serialisation. The routes are methods called with the claims `authenticateToken`
  attached.
- The React front end, the system performance service, its controller, its routes and
  its schema.

## Findings

| source | as written | input that shows it | evidently intended | confidence | as-written member | corrected member |
|---|---|---|---|---|---|---|
| backend/services/backupService.js:189-195 | after deleting the k old backups, the excess loop unlinks `backups[i]` for i from 0, and `backups` still holds the deleted ones | one backup older than 30 days and eleven newer ones: the first unlink of the excess loop targets the already-deleted file, throws, and eleven recent backups remain | delete the oldest recent backups beyond ten, starting after the old ones | not executed | BackupService.CleanupAsWrittenEffect | BackupService.CleanupEffect |
| backend/routes/mfa.js:48-53 | `/verify` calls `jwt.sign` but the file never requires `jsonwebtoken` | a user holding a valid code sends it: the code is cleared, then signing throws and the reply is 500; sending it again gives 401 | answer the consumed code with a 24-hour token | not executed | MfaRoutes.VerifyAsWritten | MfaRoutes.Verify |
| backend/controllers/errorLogController.js:15 | the userId falls back to the string 'unknown' and is stored in an ObjectId reference field | an error logged outside an authenticated request: 'unknown' fails the cast, the save is refused and swallowed, and the error is never recorded | store errors of unidentified users without a userId | not executed | ErrorLogController.AnonymousErrorsDropped | ErrorLogController.ErrorRecordDefaults |
| backend/middleware/auditLog.js:1 | `require('../models/AuditLog')` binds the exports object `{ AuditLog }`, so `AuditLog.create` is undefined | a request to '/api/auth/login': the create call throws a TypeError, which is caught, and nothing is stored | bind the model and create an entry the schema accepts (with the fix of the next row) | not executed | AuditLogMiddleware.AuditAsWritten | AuditLogMiddleware.AuditIntended |
| backend/middleware/auditLog.js:42-48 | the created document has no `userEmail`, which the AuditLog schema requires, and it takes the id from `req.user?.id` while user tokens carry `userId` | with the model bound, a request to '/api/auth/login' by a user whose token claims a userId and an email: the document fails validation, the rejection is caught, and nothing is stored | read `req.user?.userId`, supply `userEmail`, and fall back to 'unknown' as the routes do | not executed | AuditLogMiddleware.RequestRecordRefused | AuditLogMiddleware.AuditIntended |
| backend/controllers/trainerController.js:1 | `const Trainer = require('../models/Trainer')` binds the export object, while `middleware/auth.js` and every other model file use `{ Trainer }`-style exports | a trainer with the right password logs in: `Trainer.findOne` is not a function, the TypeError is caught, and the reply is 500 'Error during login'; every other trainer handler likewise answers 500 | `const { Trainer } = require('../models/Trainer')` | not executed | TrainerController.AsWrittenRefusesEveryLogin | TrainerController.LoginTrainer |
| backend/services/reportService.js:61-62 | the activity report groups `AuditLog` documents by `eventType` and `'userId.email'`, but the schema declares no `eventType` and `userId` is a plain string, so neither key reads a value | any two audit entries in the date range, a login by one user and a logout by another: both land in the single group 'undefined' by type and again by user | group by the entry's type and by its user's email | not executed | ReportService.ActivityGroupsAsWritten | ReportService.UserActivityTotals |
| backend/services/reportService.js:29-35 | the report is saved without `generatedBy`, which the schema requires | any known type such as 'userActivity': the save fails validation and generateReport throws | record the requesting user as `generatedBy` | not executed | ReportService.GenerateReportAsWritten | ReportService.GenerateReport |
