# davinci services: cron jobs, data sources and user accounts in Dafny

This project models the decision logic of three back-end services of the
davinci BI platform. It proves what each operation does to the service's
tables, to the shared Redis lock table and to the cluster topic.

- **The cron job service** (`CronJobServiceImpl`). It keeps a status machine
  per job over NEW, START, STOP and FAILED:
  - a name check, then the name lock, around create and rename;
  - the scheduler's triggers on this node;
  - the startup sweep, which takes a per-job lock before it re-adds a started
    job;
  - manual execution, which checks the active window and then the job type.
- **The data-source service** (`SourceServiceImpl`). It covers:
  - the source table with its name check and name lock;
  - the pool of connections on this node and the cluster-wide release of a
    pooled connection;
  - the version normalisation of a test connection;
  - the CSV/Excel upload rules, and the paging of an insert batch into
    1000-row slices.
- **The user service** (`UserServiceImpl`). It covers:
  - registration under username and email locks;
  - login, with the LDAP fallback and LDAP auto-registration;
  - the keyword search that removes the caller in place;
  - activation;
  - the forgotten-password and reset tickets.

Layout:

| file | module | content |
|---|---|---|
| `base.dfy` | `Base` | `Option`, `Result` |
| `text.dfy` | `Text` | `Long.toString`, `String.trim`, ASCII case mapping, splitting at a separator |
| `records.dfy` | `Records` | the rows (cron job, source, connection fingerprint) and the shared `isExist` decision |
| `coordination.dfy` | `Coordination` | Redis: the `Store` class with its lock table (key to time-to-live) and the published messages |
| `cron_jobs.dfy` | `CronJobs` | the `CronJobService` class |
| `source_upload.dfy` | `SourceUpload` | upload guards, table/insert plans and the `executeInsert` paging |
| `sources.dfy` | `Sources` | the `SourceService` class |
| `users.dfy` | `Users` | the `UserService` class |

Each service is a class:
- Its table is a `map` from id to row, and `nextId` is the id the database
  assigns next.
- It shares one `Store` with the other services.
- `Valid()` states the table's invariant: ids match their keys, and no two
  rows share a name within a scope. For users, no name finds two accounts.
  Every state-changing method preserves `Valid()`.

The collaborators the services call become inputs:
- the permission check (`mayWrite`);
- the row counts or failures of mapper writes (`inserted`, `updated`,
  `deleted`, `WriteOutcome`);
- scheduler outcomes (`AddOutcome`, `removeFails`);
- connection tests (`connects`);
- the LDAP directory's answers (`LdapDirectory`, `registered`);
- token checks (`tokenValid`, `tokenUser`);
- BCrypt results (`checkpw`, `hashed`);
- the password cipher (`encrypt`, `decrypt`);
- the clock (`now`) and random check codes (`checkCode`);
- whether the lock helpers hand out a lock object at all (`Store.locking`),
  kept apart from whether Redis is on (`Store.enabled`).

The lock table follows the services' own conventions:
- `getLock` and `LockFactory.getLock` may yield no lock object. A null lock lets the
  caller proceed.
- Acquiring is set-if-absent with a time-to-live.
- Releasing deletes the key.

## Model

| member | source | states |
|---|---|---|
| CronJobs.CronJobService.IsExist | server/src/main/java/edp/davinci/service/impl/CronJobServiceImpl.java:83-89 | true exactly when a job of the project other than `id` holds the name (any holder when `id` is null) |
| CronJobs.CronJobService.FindByName | server/src/main/java/edp/davinci/service/impl/CronJobServiceImpl.java:84 | the id found holds the name in the project; none found means no job does |
| CronJobs.CronJobService.CreateCronJob | server/src/main/java/edp/davinci/service/impl/CronJobServiceImpl.java:136-176 | refuses without permission or for a taken name or contended lock; otherwise inserts the job under the next id with status NEW, or fails on a failed insert with the table unchanged; the lock table is the same afterwards on every path |
| CronJobs.CronJobService.UpdateCronJob | server/src/main/java/edp/davinci/service/impl/CronJobServiceImpl.java:187-234 | a missing job, missing permission, a project mismatch, a START job, a taken name or a contended lock change nothing; a failed write or scheduler modification removes the trigger and persists FAILED with result false; when that trigger removal throws too, the call fails and nothing changes; the lock table is restored on every path |
| CronJobs.CronJobService.DeleteCronJob | server/src/main/java/edp/davinci/service/impl/CronJobServiceImpl.java:245-258 | a deleted row also removes its trigger; when that removal throws, the call fails and the deletion is rolled back; anything else changes neither |
| CronJobs.CronJobService.StartCronJob | server/src/main/java/edp/davinci/service/impl/CronJobServiceImpl.java:262-280 | a successful addJob registers the trigger and persists START; on a SchedulerException or a server error it fails, and the rollback leaves jobs and triggers unchanged |
| CronJobs.CronJobService.StartCronJobRecordingFailure | server/src/main/java/edp/davinci/service/impl/CronJobServiceImpl.java:273-279 | as StartCronJob, except that a SchedulerException leaves the job persisted as FAILED at the call's time, with no trigger added, and still fails |
| CronJobs.CronJobService.StopCronJob | server/src/main/java/edp/davinci/service/impl/CronJobServiceImpl.java:292-316 | with Redis on it only publishes the job with status STOP; otherwise it removes the trigger and persists STOP, or FAILED when removal throws |
| CronJobs.CronJobService.StartAllJobs | server/src/main/java/edp/davinci/service/impl/CronJobServiceImpl.java:319-336 | when the lock helper hands out locks (`Store.locking`), every started job whose `CRONJOB_<id>_<projectId>` lock was free is locked for 300 s and re-added; a SchedulerException marks only that job FAILED; no other job, trigger or lock changes; when the lock helper hands out no lock, the sweep aborts on the first started job and changes nothing |
| CronJobs.CronJobService.SweepAll | server/src/main/java/edp/davinci/service/impl/CronJobServiceImpl.java:320-335 | the loop over all jobs ends in the sweep state for every started job |
| CronJobs.CronJobService.SweepJob | server/src/main/java/edp/davinci/service/impl/CronJobServiceImpl.java:321-334 | one iteration extends the sweep state by one job |
| CronJobs.SweepStateStep | server/src/main/java/edp/davinci/service/impl/CronJobServiceImpl.java:322-333 | locking, adding and failing one job keeps the sweep's relation between old and new jobs, triggers and locks |
| CronJobs.SweptLocksStep | server/src/main/java/edp/davinci/service/impl/CronJobServiceImpl.java:324 | a job's startup lock is free at its turn exactly when it was free before the sweep (keys are per job) |
| CronJobs.SweptJobsStep | server/src/main/java/edp/davinci/service/impl/CronJobServiceImpl.java:326-331 | only the job whose addJob threw becomes FAILED |
| CronJobs.SweepStateValid | server/src/main/java/edp/davinci/service/impl/CronJobServiceImpl.java:330 | the sweep changes only statuses, so the table invariant survives it |
| CronJobs.StartupLockNameInjective | server/src/main/java/edp/davinci/service/impl/CronJobServiceImpl.java:322-323 | different jobs never share a startup lock key |
| CronJobs.Decide | server/src/main/java/edp/davinci/service/impl/CronJobServiceImpl.java:347-387 | a run is dispatched only when startDate <= now <= endDate; "email" runs the email service and "weChatWork" the WeChat Work service, after trimming; an empty trimmed type only logs |
| CronJobs.DecideIgnoresPadding | server/src/main/java/edp/davinci/service/impl/CronJobServiceImpl.java:350 | blanks around the job type do not change the dispatch |
| CronJobs.WindowIsInclusive | server/src/main/java/edp/davinci/service/impl/CronJobServiceImpl.java:348-349 | both ends of the window are inside it and the moment after the end is outside |
| CronJobs.CronJobService.ExecuteCronJob | server/src/main/java/edp/davinci/service/impl/CronJobServiceImpl.java:339-388 | a permitted execution always answers true and hands the window/type decision to the worker |
| Coordination.Store.TryLock | server/src/main/java/edp/davinci/service/impl/CronJobServiceImpl.java:324 | acquired exactly when the key was free, and then held with the given time-to-live |
| Coordination.Store.Acquire | server/src/main/java/edp/davinci/service/impl/SourceServiceImpl.java:198-199 | a null lock lets the caller proceed; otherwise set-if-absent with the name-lock time-to-live |
| Coordination.Store.Release | server/src/main/java/edp/davinci/service/impl/SourceServiceImpl.java:228 | the key is deleted; a null lock is ignored |
| Coordination.Store.Publish | server/src/main/java/edp/davinci/service/impl/SourceServiceImpl.java:681 | the message is appended to the topic |
| Coordination.AcquireThenReleaseRestores | server/src/main/java/edp/davinci/service/impl/SourceServiceImpl.java:198-228 | taking a free key and deleting it leaves the lock table as it was |
| Records.SourceLabelInjective | server/src/main/java/edp/davinci/service/impl/SourceServiceImpl.java:645 | the pool label `id@name` determines both the id and the name |
| Sources.SourceService.IsExist | server/src/main/java/edp/davinci/service/impl/SourceServiceImpl.java:104-110 | true exactly when another source of the project holds the name |
| Sources.SourceService.FindByName | server/src/main/java/edp/davinci/service/impl/SourceServiceImpl.java:105 | the id found holds the name in the project; none found means no source does |
| Sources.SourceService.CreateSource | server/src/main/java/edp/davinci/service/impl/SourceServiceImpl.java:185-230 | refuses without permission, for a taken name, an unknown type, a contended lock or a failed connection test; inserts with the password encrypted only after the test; the lock table is the same afterwards on every path |
| Sources.SourceService.UpdateSource | server/src/main/java/edp/davinci/service/impl/SourceServiceImpl.java:268-335 | refusals change nothing; a successful update stores the new settings encrypted and releases the old pooled connection exactly when its fingerprint changes; when the lock helper hands out no lock it fails on the null lock; the other nodes are told only with Redis on |
| Sources.Updated | server/src/main/java/edp/davinci/service/impl/SourceServiceImpl.java:296-302 | the stored row keeps id and project, and takes the new name, type and settings with the password encrypted |
| Sources.ReleaseIffFingerprintChanges | server/src/main/java/edp/davinci/service/impl/SourceServiceImpl.java:309-327 | the fingerprint changes exactly when the label, url, username, stored password, version or ext changes |
| Sources.AsWrittenReleasesUnchanged | server/src/main/java/edp/davinci/service/impl/SourceServiceImpl.java:317-327 | as written, resubmitting the stored settings unchanged still produces a different key |
| Sources.SourceService.ReleaseConnection | server/src/main/java/edp/davinci/service/impl/SourceServiceImpl.java:643-673 | the fingerprint leaves this node's pool; with Redis on, the id is recorded and the fingerprint is published to the other nodes |
| Sources.SourceService.DeleteSource | server/src/main/java/edp/davinci/service/impl/SourceServiceImpl.java:346-365 | a source used by a view is not deleted; the pool is released only when exactly one row was deleted, and then, with Redis on, the id is recorded and the fingerprint published, while with Redis off neither changes |
| Sources.Normalise | server/src/main/java/edp/davinci/service/impl/SourceServiceImpl.java:380-388 | without ext the version is dropped; an empty or default version drops ext; afterwards ext implies a non-empty, non-default version |
| Sources.TestSource | server/src/main/java/edp/davinci/service/impl/SourceServiceImpl.java:374-412 | the connection is tried with the normalised settings; true on success, an error otherwise |
| Sources.SourceService.Reconnect | server/src/main/java/edp/davinci/service/impl/SourceServiceImpl.java:620-636 | fails with the pool untouched exactly when user or decrypted password differ from the stored ones; when they match it succeeds, releases the pooled connection (recording the id and publishing the fingerprint with Redis on, neither with Redis off) and answers the connection test |
| Sources.SourceService.ValidCsvmeta | server/src/main/java/edp/davinci/service/impl/SourceServiceImpl.java:423-445 | NEW needs the table absent, every other mode needs it present |
| Sources.SourceService.DataUpload | server/src/main/java/edp/davinci/service/impl/SourceServiceImpl.java:459-507 | only csv/xlsx/xls files against a MySQL url reach the table plan; a failing plan returns its own error, and an accepted plan's statements run in an order the table admits |
| SourceUpload.UploadGuard | server/src/main/java/edp/davinci/service/impl/SourceServiceImpl.java:466-484 | accepted exactly for a csv file whose content looks like csv, an xlsx file whose content looks like Excel, or any xls file (its content is not checked), each with a MySQL url; a refused upload gets the error of the first check it fails, in the order file type, content, url |
| SourceUpload.TableCheck | server/src/main/java/edp/davinci/service/impl/SourceServiceImpl.java:432-440 | passes exactly when NEW meets an absent table or another mode meets a present one |
| SourceUpload.CreateTablePlan | server/src/main/java/edp/davinci/service/impl/SourceServiceImpl.java:706-736 | no fields is an error; COVER drops and recreates; NEW creates an absent table; other modes need the table |
| SourceUpload.InsertPlan | server/src/main/java/edp/davinci/service/impl/SourceServiceImpl.java:766-777 | COVER and REPLACE truncate before inserting; the inserts are the 1000-row pages in order |
| SourceUpload.UploadPlan | server/src/main/java/edp/davinci/service/impl/SourceServiceImpl.java:466-507 | the table plan followed by the insert plan, with each mode's table requirement |
| SourceUpload.UploadPlanRuns | server/src/main/java/edp/davinci/service/impl/SourceServiceImpl.java:706-777 | every statement of an accepted plan meets a table that exists when it needs one |
| SourceUpload.CreateTableAgreesWithCsvMeta | server/src/main/java/edp/davinci/service/impl/SourceServiceImpl.java:432-440 | for every mode but COVER, createTable refuses exactly the uploads validCsvmeta refuses, with the same error; for COVER they disagree on an absent table, which validCsvmeta refuses and createTable recreates |
| SourceUpload.PageCount | server/src/main/java/edp/davinci/service/impl/SourceServiceImpl.java:798-807 | the number of pages is the ceiling of total/1000 |
| SourceUpload.PageSlices | server/src/main/java/edp/davinci/service/impl/SourceServiceImpl.java:822-830 | page p covers rows [p*1000, min((p+1)*1000, total)) |
| SourceUpload.PagesCoverRows | server/src/main/java/edp/davinci/service/impl/SourceServiceImpl.java:822-830 | the pages are contiguous and non-overlapping, and together they give back exactly the rows |
| SourceUpload.PagesAreBounded | server/src/main/java/edp/davinci/service/impl/SourceServiceImpl.java:822-830 | no page is empty or longer than 1000 rows |
| SourceUpload.InsertPages | server/src/main/java/edp/davinci/service/impl/SourceServiceImpl.java:797-831 | the loop produces exactly the page slices, and the worker count is min(pages, 8) |
| SourceUpload.PageBoundsFitInt | server/src/main/java/edp/davinci/service/impl/SourceServiceImpl.java:826-827 | up to 2147483000 rows, every page bound fits a Java int |
| Users.UserService.IsExist | server/src/main/java/edp/davinci/service/impl/UserServiceImpl.java:112-118 | true exactly when an account other than `id` is found under the name; the scope is ignored |
| Users.UserService.FindByName | server/src/main/java/edp/davinci/service/impl/UserServiceImpl.java:113 | the id found is an account with that username or email; none found means no account has it |
| Users.UserService.Regist | server/src/main/java/edp/davinci/service/impl/UserServiceImpl.java:128-175 | a registered username is refused first, then a registered email, then a contended lock, all before any insert; a success inserts an inactive account with the hashed password and mails the activation; the lock table is the same afterwards on every path, and no name finds two accounts |
| Users.UserService.AcquireNameLocks | server/src/main/java/edp/davinci/service/impl/UserServiceImpl.java:144-156 | the email lock exists only when username and email differ ignoring case, and is then a different key; both are taken exactly when both are free; a refusal leaves the lock table as it was |
| Users.UserService.AcquireNameLocksAsWritten | server/src/main/java/edp/davinci/service/impl/UserServiceImpl.java:144-156 | as written, a contended email lock refuses the registration with the username lock still held |
| Users.EmailLockName | server/src/main/java/edp/davinci/service/impl/UserServiceImpl.java:149-152 | the email gets a lock of its own exactly when it differs from the username ignoring case |
| Users.TakeBothThenReleaseRestores | server/src/main/java/edp/davinci/service/impl/UserServiceImpl.java:171-174 | releasing both locks in order undoes taking them |
| Users.UserService.SendMail | server/src/main/java/edp/davinci/service/impl/UserServiceImpl.java:407-428 | mails the activation only when the given email is the account's email |
| Users.UserService.UserLogin | server/src/main/java/edp/davinci/service/impl/UserServiceImpl.java:229-261 | an existing account logs in exactly when the password check or the LDAP login succeeds; an unknown name goes through LDAP auto-registration |
| Users.ExistingLogin | server/src/main/java/edp/davinci/service/impl/UserServiceImpl.java:236-258 | success exactly when the password matches or the directory finds the person; otherwise "wrong password" |
| Users.LdapAutoRegist | server/src/main/java/edp/davinci/service/impl/UserServiceImpl.java:276-298 | no server, no person or no registered user is a wrong password; a taken LDAP email is refused; otherwise the person is registered |
| Users.RegistrationPerson | server/src/main/java/edp/davinci/service/impl/UserServiceImpl.java:293-295 | the person is handed on unchanged when its sAMAccountName is free, and with the email as account name exactly when it is taken |
| Users.GetUsersByKeyword | server/src/main/java/edp/davinci/service/impl/UserServiceImpl.java:310-325 | with includeSelf the list is unchanged; otherwise the iterator loop leaves exactly the filtered list |
| Users.WithoutCallerRemovesExactly | server/src/main/java/edp/davinci/service/impl/UserServiceImpl.java:317-322 | no row of the caller remains, and every other row keeps its multiplicity |
| Users.WithoutCallerAppend | server/src/main/java/edp/davinci/service/impl/UserServiceImpl.java:316-322 | filtering distributes over concatenation, so kept rows keep their order |
| Users.UserService.ActivateUserNoLogin | server/src/main/java/edp/davinci/service/impl/UserServiceImpl.java:343-397 | an invalid token, an unknown user, an active user, a contended `ACTIVATE@<NAME>` lock or a failed token check change nothing; otherwise the account becomes active at `now` and gets "<username>'s Organization" with itself as owner; the lock table is restored |
| Users.ActivationKeyIgnoresCase | server/src/main/java/edp/davinci/service/impl/UserServiceImpl.java:364 | two activations contend for one lock exactly when their usernames agree ignoring case |
| Users.TicketFormatError | server/src/main/java/edp/davinci/service/impl/UserServiceImpl.java:563-589 | an EMAIL ticket must be non-empty and match the email pattern; a USERNAME ticket must be non-empty |
| Users.ResetFieldsError | server/src/main/java/edp/davinci/service/impl/UserServiceImpl.java:644-649 | a reset needs a non-empty check code, then a non-empty password |
| Users.UserService.ForgetPassword | server/src/main/java/edp/davinci/service/impl/UserServiceImpl.java:561-611 | a bad or unregistered ticket is refused with nothing mailed; otherwise the check code goes to the account's email, and the token carries the username, the code and a ten-minute lifetime |
| Users.UserService.ResetPassword | server/src/main/java/edp/davinci/service/impl/UserServiceImpl.java:615-660 | the ticket checks, then the check code, password and token checks, each refusal changing nothing; once all pass it succeeds, only that account's password hash changes, and the answer is whether a row changed |

## Left out

- Transactions and rollback. The exceptions the services throw (`ServerException`
  among them) are taken to be unchecked, so Spring rolls the transaction back
  when one escapes: a method that fails changes no table, even where the
  source saved something before throwing (`startCronJob`'s FAILED status).
  Writes in a `catch` that returns normally are kept (`updateCronJob`,
  `stopCronJob`). Lock-table and scheduler changes are not transactional.
  Commits and isolation are not modelled.
- Concurrency:
  - Concurrency appears only through the lock table's state.
  - The thread pools of `executeInsert` and `executeCronJob` are not modelled.
  - Lock time-to-live expiry is not modelled.
- The helper classes are not part of this model. These are `BaseEntityService`
  (`getLock`, `releaseLock`, `alertNameTaken`, permission checks), `LockFactory`,
  `QuartzHandler`, the mappers, `SourceUtils`, `SqlUtils`, `TokenUtils`,
  `AESUtils`, `SourcePasswordEncryptUtils`, `MailUtils`, the LDAP service and
  the enum/constant classes.
  - Their answers are inputs.
  - The name-lock key is taken to be (entity, name, scope).
  - Whether `getLock` and `LockFactory.getLock` return null is the input
    `Store.locking`. Their callers check for null, except `updateSource` and
    `startAllJobs`, which then fail. If the helpers return null exactly when
    Redis is off, as the Redis switch suggests, those two always fail on a
    node without Redis; the helpers' code is not part of this model.
  - The default driver version is a parameter.
- Lookups: the user lookups (`getIdByName`, `selectByUsername`) are taken to
  match the username or the email, as their use with an email argument shows.
- Case mapping: `toUpperCase`/`toLowerCase` are modelled on ASCII letters
  only, and `trim` as removing characters up to U+0020.
- Read-only and external operations are not modelled: `getSources`,
  `getSourceDetail`, `getSourceDbs`, `getSourceTables`, `getTableInfo`,
  `getDatasources`, `externalRegist` (OAuth), `updateUser` and the other
  profile operations.
- Connection tests (`SqlUtils.testConnection`) open pooled connections; the
  `pool` field records only releases, so after a successful `reconnect`,
  `createSource` or `updateSource` the model does not show the fingerprint
  pooled again.
- CSV and Excel parsing, the SQL templates and the statement texts are not
  modelled. An upload plan is a sequence of abstract statements, and a
  failing statement is not modelled.
- Sources.SourceService.DataUpload: it does not model the asynchronous insert
  or its failure after the table statements.
- SourceUpload.InsertPages: integers are unbounded, so Java's 32-bit
  wrap-around of `p * pageSize` is not modelled. `PageBoundsFitInt` shows
  that it cannot occur below 2147483000 rows.
- CronJobs.CronJobService.StartAllJobs: it walks the jobs in id order. The
  mapper's order is not known, and the outcome does not depend on it since
  the locks are per job.
- Users.UserService.UserLogin: it does not model `registPerson`, which
  inserts the LDAP user. The user it returns is an input.
- Users.UserService.ResetPassword: `validateToken` is an input, so the tie
  between the token `ForgetPassword` returns and a later reset is not proved.
- Mail contents other than the recipient and the ticket data are not
  modelled; neither are the tokens inside them.

## Findings

| source | as written | input that shows it | evidently intended | confidence | as-written member | corrected member |
|---|---|---|---|---|---|---|
| server/src/main/java/edp/davinci/service/impl/UserServiceImpl.java:144-156 | the username lock is taken before the email lock; when the email lock is contended, `alertNameTaken` throws before the `try`, so the `finally` that releases the username lock never runs | Redis on, username `alice`, email `a@x.io`, and another registration holds the lock for `a@x.io`: the call fails and the lock for `alice` stays held until it expires | both locks are released on every path, so a refused registration leaves the lock table unchanged | high, not executed | Users.UserService.AcquireNameLocksAsWritten | Users.UserService.AcquireNameLocks |
| server/src/main/java/edp/davinci/service/impl/SourceServiceImpl.java:309-327 | the old key uses the stored password, which is encrypted (`reconnect` at line 628 decrypts it), while the new key uses the request's password in clear, and the new label uses the settings' name rather than the source's | an update that resubmits the stored settings unchanged, with any cipher that changes the password: the keys differ and the pooled connection is released | the old connection is released exactly when the stored fingerprint changes | medium, not executed | Sources.AsWrittenReleasesUnchanged | Sources.ReleaseIffFingerprintChanges |
| server/src/main/java/edp/davinci/service/impl/CronJobServiceImpl.java:273-279 | on a SchedulerException the job is set to FAILED and saved, then a `ServerException` is thrown inside the `@Transactional` method, so the save is rolled back | a stopped job whose addJob throws a SchedulerException: the call fails and the job is still STOP, not FAILED | the job is recorded as FAILED and the error reaches the caller | medium, not executed | CronJobs.CronJobService.StartCronJob | CronJobs.CronJobService.StartCronJobRecordingFailure |
