# The club site's core, modelled in Dafny

The repository is the web site of a student club. It has an Express server, a local SQL backend, a
second backend reached through the Supabase client, a browser uploader and a browser activity log.
This project models the parts of it that make decisions and proves what they promise:

- **The activity log** (`ActivityLog`). `ActivityLogger` is a class holding a sequence of entries
  and an initialised flag. Its operations:
  - `log` appends and evicts the oldest entries beyond `maxLogs`;
  - `getLogs` narrows a copy by up to four criteria, then keeps the most recent `limit`;
  - `getStats` tallies the entries by level and by module;
  - `exportLogs('csv')` writes one quoted line per entry;
  - `clearLogs` and `isHealthy`.
- **The registry tables** (`Registry`). A table is a sequence of rows with an auto-increment key and
  the `created_at`/`updated_at` instants. On top of it sit:
  - the `ORDER BY created_at DESC` listing, with its optional `WHERE` filter;
  - the status update;
  - the status counts.
- **The local backend** (`LocalDatabase`). `LocalDatabaseAPI` is a class with its connection flag,
  whether it holds a driver, four tables and the uploaded files. Every statement passes the gate of
  `executeQuery`. Sign-up, sign-in, the user lookup, applications, projects, upload naming and the
  statistics are modelled.
- **The Supabase backend** (`SupabaseBackend`). Its submit, list, update and statistics operations
  run over the same table type. Lemmas relate them to the local backend.
- **The browser uploader** (`FileUpload`). It covers the MIME whitelist and the 5 MiB limit, checked
  in that order and before storage is called. It also covers the generated name, the `folder/name`
  path, the signed-URL fallback and the precedence of the friendly error messages.
- **The HTTP layer** (`Server`). It covers:
  - bearer-token extraction and the 401/403 gate, which sets `req.user`;
  - the 400 checks for credentials, made before any statement;
  - the `user_id`/`owner_id` overrides taken from the token;
  - multer's filter, size limit and file name;
  - the upload URL;
  - what every route answers.
- **Helpers.** `Wrappers` (Option, Result), `Seqs` (filter, JavaScript `slice(-n)`, subsequences),
  `Text` (split, join, containment, decimal text) and `Paths` (Node's `path.extname` for POSIX
  paths).

Every source of outside behaviour is a parameter. That covers the SQL driver and the Supabase
client: each call takes the fault it reports, if any. It also covers `bcrypt.hash`/`compare`,
`jwt.sign`/`verify`, the storage bucket's answers, `Date.now()` and the random text.

## Model

| member | source | states |
|---|---|---|
| ActivityLog.Appended | activity-logger.js:53-58 | the buffer after one push and trim; its contract is stated by `AppendedKeepsNewest` and `AppendEvictsOnlyWhenFull` |
| ActivityLog.AppendedKeepsNewest | activity-logger.js:53-58 | after a push and trim with a positive cap, the buffer has `min(old+1, cap)` entries, never more than the cap, is the newest suffix of `old ++ [e]`, and ends with the new entry |
| ActivityLog.AppendEvictsOnlyWhenFull | activity-logger.js:56-58 | the push evicts nothing exactly when the buffer held fewer than `cap` entries |
| ActivityLog.AppendedAllKeepsNewest | activity-logger.js:53-58 | logging a run of entries into a buffer within its cap leaves the newest `min(cap, total)` entries of the whole history, in order (FIFO eviction) |
| ActivityLog.FifoEvictionExample | activity-logger.js:53-58 | with a cap of three, five entries leave the last three |
| ActivityLog.ActivityLogger.constructor | activity-logger.js:6-11 | a new logger loads the stored entries (or none) and records the start-up notice; an unreadable store leaves it empty and uninitialised; the buffer is within `maxLogs` = 1000 |
| ActivityLog.ActivityLogger.Init | activity-logger.js:16-29 | `init` replaces the entries by the stored ones when there are any, marks the log initialised and appends the notice; an unreadable store changes no entry and leaves the log uninitialised |
| ActivityLog.ActivityLogger.Log | activity-logger.js:38-58 | on an initialised log, the entries become the push-and-trim of the old ones with the new entry, so the cap holds; on an uninitialised log nothing changes |
| ActivityLog.ActivityLogger.Info | activity-logger.js:77-79 | `log` with level `info`; the cap is kept |
| ActivityLog.ActivityLogger.Warning | activity-logger.js:87-89 | `log` with level `warning`; the cap is kept |
| ActivityLog.ActivityLogger.Error | activity-logger.js:97-99 | `log` with level `error`; the cap is kept |
| ActivityLog.ActivityLogger.Success | activity-logger.js:107-109 | `log` with level `success`; the cap is kept |
| ActivityLog.ActivityLogger.GetLogs | activity-logger.js:127-155 | the step-by-step narrowing and the limit return exactly `Query(logs, f)`; the entries are not modified |
| ActivityLog.ActivityLogger.NarrowStep | activity-logger.js:130-147 | one step filters by its criterion when that criterion is given, and otherwise returns the copy unchanged |
| ActivityLog.Stage | activity-logger.js:130-147 | each step turns the entries passing the first `n` criteria into those passing the first `n+1` |
| ActivityLog.AllStagesAreTheConjunction | activity-logger.js:130-147 | the four steps in turn select the same entries as the four criteria together |
| ActivityLog.StagesThenLimit | activity-logger.js:149-152 | applying the limit after the four steps yields the query |
| ActivityLog.Query | activity-logger.js:127-152 | the specification of `getLogs`: the entries meeting every given criterion, of which a given limit keeps `slice(-limit)`; its contract is stated by `QuerySound`, `QueryKeepsOrder`, `QueryWithoutLimitIsComplete` and `QueryLimitKeepsMostRecent` |
| ActivityLog.QuerySound | activity-logger.js:127-147 | every returned entry is a logged entry that meets every given criterion (module, level, `startTime <= t`, `t <= endTime`) |
| ActivityLog.QueryKeepsOrder | activity-logger.js:127-152 | the result is a subsequence of the log, in the log's order |
| ActivityLog.QueryWithoutLimitIsComplete | activity-logger.js:127-147 | without a limit, each matching entry comes back as often as it was logged and no other entry does |
| ActivityLog.QueryLimitKeepsMostRecent | activity-logger.js:150-152 | a positive limit returns the last `min(limit, k)` of the `k` matching entries |
| ActivityLog.ActivityLogger.ClearLogs | activity-logger.js:160-164 | an initialised log ends with exactly its clearing notice; an uninitialised one ends empty |
| ActivityLog.ActivityLogger.ExportCsv | activity-logger.js:171-184 | `exportLogs('csv')`: the header and one quoted line per entry, joined by newlines; its contract is stated by `ExportCsvShape` |
| ActivityLog.ExportCsvShape | activity-logger.js:172-184 | when no cell holds a newline, the export splits into `logs.length + 1` lines, the header first and then one line per entry; when no cell holds a comma, each line splits into the five quoted cells |
| ActivityLog.CsvLineSplits | activity-logger.js:183 | a line of comma-free cells splits back into the cells, each wrapped in `"` |
| ActivityLog.CsvLineAvoids | activity-logger.js:183 | quoting and joining add no character other than `"` and `,` |
| ActivityLog.ActivityLogger.GetStats | activity-logger.js:194-212 | `total` is the number of entries; `byLevel` and `byModule` are the tallies, each summing to `total`, with each key's count its number of occurrences; `recentActivity` is the last `min(10, total)` entries |
| ActivityLog.Tally | activity-logger.js:203-210 | a `byLevel` or `byModule` counter filled entry by entry; its contract is stated by `TallyCounts` and `TallySum` |
| ActivityLog.TallyCounts | activity-logger.js:203-210 | a counter object holds a key exactly when it occurs, and then its number of occurrences |
| ActivityLog.TallySum | activity-logger.js:203-210 | every entry is counted exactly once: the counters sum to the number of entries |
| ActivityLog.ActivityLogger.IsHealthy | activity-logger.js:219-221 | `isHealthy()`; its contract is stated by `HealthyIffNextLogEvictsNothing` |
| ActivityLog.HealthyIffNextLogEvictsNothing | activity-logger.js:219-221 | `isHealthy()` holds exactly when the log is initialised and its next entry would evict nothing |
| Registry.Project | local-database-api.js:129-141 | the projection keeps exactly the listed fields the record has, with their values; a missing field stays missing |
| Registry.SortNewestFirst | local-database-api.js:151 | `ORDER BY created_at DESC`, keeping rows with equal `created_at` in storage order; its contract is stated by `SortIsOrderedPermutation`, `FirstIsNewest` and `SortFilterCommute` |
| Registry.SortIsOrderedPermutation | local-database-api.js:151 | `ORDER BY created_at DESC` yields the same rows, as a multiset, newest first |
| Registry.FirstIsNewest | local-database-api.js:151 | the first row of the ordering is at least as new as every row |
| Registry.SortFilterCommute | supabase-config.js:98-105 | filtering the ordered table is the same as ordering the filtered table |
| Registry.Listing | local-database-api.js:149-159 | a listing with the `WHERE` clause added only for a truthy value; its contract is stated by `ListingIsSelection` |
| Registry.ListingIsSelection | local-database-api.js:149-159 | a listing is newest first and holds each selected row as often as the table does and nothing else; with a truthy filter value it is the unfiltered listing with the other rows removed, under this model's order for rows with equal `created_at` (see "## Left out") |
| Registry.WithStatus | local-database-api.js:167 | `UPDATE ... SET status = ? [, updated_at] WHERE id = ?`; its contract is stated by `WithStatusTouchesOnlyThatRow` |
| Registry.WithStatusTouchesOnlyThatRow | local-database-api.js:167 | the update changes the status, and `updated_at` when touched, of the rows with that id; no other row, column, id or `created_at` changes; the status may be any value, and a missing one clears the column |
| Registry.CountWhere | local-database-api.js:260-273 | `SELECT COUNT(*) ... WHERE status = ?`; its contract is stated by `StatusCountsMakeUpTotal` |
| Registry.StatusCountsMakeUpTotal | local-database-api.js:260-273 | the three status counts add up to at most the number of rows, and to exactly that number when every row has one of the three statuses |
| Registry.Table.Insert | local-database-api.js:122-141 | an insert appends one row under the next key, created and updated now, and keeps the keys increasing |
| Registry.Table.UpdateStatus | local-database-api.js:167 | the rows become the update of the old rows; the keys stay valid |
| Registry.UniqueKeys | local-database-api.js:167 | keys are unique, so an update by id reaches at most one row |
| LocalDatabase.FirstWhere | local-database-api.js:81-85 | `result.data[0]` exists exactly when some row matches, and is then a matching row of the table |
| LocalDatabase.ApplicationRecord | local-database-api.js:122-141 | the row `submitApplication` inserts; its contract is stated by `ApplicationRecordShape` and `ApplicationRecordIgnoresOtherFields` |
| LocalDatabase.ApplicationRecordShape | local-database-api.js:122-141 | the inserted application is `pending` whatever the form says; `photo_url` is the form's truthy value or `''`; it copies the nine form columns exactly and holds nothing else, so no `user_id` |
| LocalDatabase.ApplicationRecordIgnoresOtherFields | local-database-api.js:122-141 | a form field outside the stored columns, such as `user_id` or `status`, does not change the row |
| LocalDatabase.ProjectRecord | local-database-api.js:175-199 | the row `createProject` inserts, the projection on its eight columns; its contract is stated by `Registry.Project` and `Server.ProjectOwnerFromToken` |
| LocalDatabase.UserRecord | local-database-api.js:45-60 | the row `signUp` inserts; its contract is stated by `SignInFindsSignedUpUser` and `Server.SignupStoresPlainUser` |
| LocalDatabase.ProfileRecord | local-database-api.js:282-305 | the row `createUserProfile` inserts; its contract is stated by `ProfileRecordShape` |
| LocalDatabase.ProfileRecordShape | local-database-api.js:282-305 | the profile row holds exactly the profile columns the form gives, with their values, the role (defaulting to `user`) and, when the driver reported an id, `user_id` as that id |
| LocalDatabase.SignInResult | local-database-api.js:74-96 | how `signIn` ends; its contract is stated by `SignInFindsSignedUpUser`, `SignInUnknownEmail` and `LocalDatabaseApi.SignIn` |
| LocalDatabase.SignInFindsSignedUpUser | local-database-api.js:74-96 | a user stored by `signUp` signs in with a password matching the hash, and gets its id, email, the stored name (defaulting to the email) and role (defaulting to `user`) without the hash; a non-matching password gives `密码错误` |
| LocalDatabase.SignInUnknownEmail | local-database-api.js:78-82 | an unknown email, or a refused query, gives `用户不存在` |
| LocalDatabase.StatsAfter | local-database-api.js:255-279 | the four counts once their queries have ended, a failed one reading 0; its contract is stated by `StatsAfterBounds` |
| LocalDatabase.StatsAfterBounds | local-database-api.js:255-275 | a failed count reads 0; with the total counted, no status count exceeds it; with all four counted, the status counts sum to at most the total, and to exactly the total iff every application has one of the three statuses |
| LocalDatabase.StoredName | local-database-api.js:230-234 | `${timestamp}_${random}${extension}`; its contract is stated by `StoredNameReadsBack`, `StoredNameEndsWithExtension` and `StoredNamesDiffer` |
| LocalDatabase.UploadPath | local-database-api.js:241 | the `/uploads/folder/name` text `uploadFile` reports; its contract is stated by `LocalDatabaseApi.UploadFile` and `Server.UploadPathsAgree` |
| LocalDatabase.StoredNameReadsBack | local-database-api.js:230-234 | the stored name starts with the timestamp, which reads back from the text before the first `_` |
| LocalDatabase.StoredNameEndsWithExtension | local-database-api.js:230-234 | the stored name ends with the original name's extension |
| LocalDatabase.StoredNamesDiffer | local-database-api.js:230-234 | uploads at different instants get different names |
| LocalDatabase.LocalDatabaseApi.constructor | local-database-api.js:5-8 | a new instance holds no driver, is not connected and has empty tables |
| LocalDatabase.LocalDatabaseApi.Init | local-database-api.js:11-42 | the type defaults to `sqlite`; `sqlite` and `mysql` give the instance a driver, and an error the `catch` sees (a failing `require`, a rejected mysql connection) is reported and leaves the state alone; any other type marks the instance connected without a driver |
| LocalDatabase.LocalDatabaseApi.Close | local-database-api.js:330-336 | `close` disconnects an instance that holds a driver, and otherwise does nothing |
| LocalDatabase.LocalDatabaseApi.SignUp | local-database-api.js:45-72 | after the gate, one user row with the email, the hash, the name (defaulting to the email) and the role (defaulting to `user`) is appended; then the profile row, whose failure is ignored; success reports the driver's insert id and the email; a refused insert changes nothing |
| LocalDatabase.LocalDatabaseApi.SignIn | local-database-api.js:74-96 | the result is the sign-in specification over the users table: a reported error or an unknown email gives `用户不存在`, a thrown error is passed on, a missing hash makes `compare` throw, a mismatch gives `密码错误`, and success gives the user without its hash |
| LocalDatabase.LocalDatabaseApi.GetUser | local-database-api.js:98-117 | the user with that id, with the first profile row for it, exists exactly when the statement runs and such a user exists; otherwise `用户不存在`, except that a thrown error is passed on |
| LocalDatabase.LocalDatabaseApi.SubmitApplication | local-database-api.js:120-147 | after the gate, exactly one row, the application record of the form, is appended; a refused insert changes nothing |
| LocalDatabase.LocalDatabaseApi.GetApplications | local-database-api.js:149-163 | the result is the listing of the applications table, filtered on `status` when it is truthy, or the gate's error |
| LocalDatabase.LocalDatabaseApi.UpdateApplicationStatus | local-database-api.js:165-172 | after the gate, the rows become the status update, with `updated_at` set to now, of the row whose id the text denotes; any status is accepted; an id naming no row changes nothing |
| LocalDatabase.LocalDatabaseApi.CreateProject | local-database-api.js:175-199 | after the gate, exactly one row of the eight project columns is appended |
| LocalDatabase.LocalDatabaseApi.GetProjects | local-database-api.js:201-215 | the result is the listing of the projects table, filtered on `owner_id` when `userId` is truthy, or the gate's error |
| LocalDatabase.LocalDatabaseApi.UploadFile | local-database-api.js:218-252 | without a connection, the file is written at `"/uploads/" + folder + "/" + fileName`, and that text is both `url` and `path`; `fileName` is `timestamp_random` plus the extension; `folder` defaults to `uploads` only when missing; a file system error writes nothing |
| LocalDatabase.LocalDatabaseApi.GetStatistics | local-database-api.js:255-279 | the four counts over the applications table, a count whose query reports an error reading 0; a thrown error fails the call |
| LocalDatabase.LocalDatabaseApi.StatementError | local-database-api.js:311-318 | the error a statement ends with: the gate's message when disconnected, the driver-less throw, or the driver's fault; its contract is stated by `DisconnectedRefusesAll` and each statement method's ensures |
| LocalDatabase.DisconnectedRefusesAll | local-database-api.js:311-316 | on a disconnected instance every statement ends with `数据库未连接`, reported and not thrown |
| SupabaseBackend.SubmittedRecord | supabase-config.js:64-76 | the row the Supabase backend sends; its contract is stated by `SubmittedRecordShape` and `BackendsStoreTheSameRow` |
| SupabaseBackend.SubmittedRecordShape | supabase-config.js:64-76 | the sent row is `pending` and otherwise holds exactly the ten listed fields the form has, with the form's values; any other field, a client `status` included, is dropped |
| SupabaseBackend.BackendsStoreTheSameRow | supabase-config.js:64-76 | the two backends store the same application except that the local one fills `photo_url` with `''` when the form has no truthy one; they agree exactly when the form has a `photo_url` |
| SupabaseBackend.SubmitApplication | supabase-config.js:61-93 | without a client error, exactly the projected row is appended; with one it is returned as a failure and nothing changes |
| SupabaseBackend.GetApplications | supabase-config.js:96-119 | ordering and then filtering on a truthy `status` gives the local backend's listing, equal up to the order of rows with equal `created_at`; a client error is returned as a failure |
| SupabaseBackend.UpdateApplicationStatus | supabase-config.js:122-140 | the status of the rows with that id is set and `updated_at` is left alone; a client error is returned and nothing changes |
| SupabaseBackend.UpdatesDifferOnlyInUpdatedAt | supabase-config.js:124-127 | the two backends' updates give the same rows and columns, differing only in the updated row's `updated_at`, which only the local backend refreshes |
| SupabaseBackend.GetStatistics | supabase-config.js:166-204 | always succeeds, with the four counts and any count the client fails to give read as 0 |
| FileUpload.IsValidImage | file-upload.js:106-109 | `isValidImage(file)`, membership of the type whitelist; its contract is stated by `IsValidImageExactly` and `Server.WhitelistWithinFilter` |
| FileUpload.IsValidImageExactly | file-upload.js:106-109 | exactly the five types `image/jpeg`, `image/jpg`, `image/png`, `image/gif`, `image/webp` are valid |
| FileUpload.GenerateFileName | file-upload.js:112-117 | `generateFileName(file)`; its contract is stated by `GeneratedNameParts` and `GeneratedNamesDiffer` |
| FileUpload.GeneratedNameParts | file-upload.js:112-117 | the generated name starts with the timestamp, which reads back from the text before the first `_`, and ends with `.` and the name's last `.`-piece; a name without `.` is its own extension |
| FileUpload.GeneratedNamesDiffer | file-upload.js:112-117 | names generated at different instants differ |
| FileUpload.FriendlyError | file-upload.js:88-95 | `Object not found` wins over `JWT`, which wins over `bucket`, with a fixed text for each; a message with none of them is shown as it is |
| FileUpload.FailedWith | file-upload.js:86-101 | the failure `uploadImage` returns, the friendly text with the raw message kept; its contract is stated by `FriendlyError` and `FileUploader.UploadImage` |
| FileUpload.KeywordFreeMessageStaysRaw | file-upload.js:88-100 | a message lacking the letters `O`, `T` and `u` holds no keyword and is shown unchanged |
| FileUpload.ValidationMessagesAreKeywordFree | file-upload.js:25-32 | the uploader's own type and size messages lack those letters, so the user sees them unchanged |
| FileUpload.Bucket.Upload | file-upload.js:39-48 | the object is stored at its path unless storage reports an error, which is returned; with `upsert: false` storage refuses a path already in use, so a stored object is never replaced |
| FileUpload.FileUploader.constructor | file-upload.js:5-8 | the uploader works on the bucket `tyjk-files` |
| FileUpload.FileUploader.UploadImage | file-upload.js:22-103 | an invalid type fails with the type message before anything else, even for an oversized file; a valid type over 5 MiB fails with the size message; neither touches storage, and exactly 5 MiB passes; the file is stored at `folder/generatedName`, a path that held no object, since storage refuses one already in use; a failed upload is mapped by `FriendlyError` with the raw message kept; a failed signed URL after a stored upload still succeeds, with the public URL and a warning |
| Paths.Extname | server.js:38 | `path.extname` gives the empty text or a `.` followed by text with no `.` and no `/` |
| Paths.ExtnameOfName | local-database-api.js:233 | a name with a non-empty stem gets the text after its last `.`, with the dot |
| Paths.ExtnameWithoutDot | local-database-api.js:233 | a name without `.` has no extension |
| Server.BearerToken | server.js:60-61 | `authHeader && authHeader.split(' ')[1]`; its contract is stated by `BearerTokenOfHeader` and `Authenticate` |
| Server.BearerTokenOfHeader | server.js:60-61 | the token is the second space-separated word of `Authorization`; a header without a space yields none |
| Server.Authenticate | server.js:59-74 | no token gives 401 `访问令牌缺失`; a token `verify` refuses gives 403 `访问令牌无效`; otherwise the request is admitted with the verified claims, and these three cases are exhaustive |
| Server.AuthenticateToken | server.js:59-74 | the gate answers a rejected request itself and leaves `req.user` alone; an admitted request gets `req.user` set to the claims and goes on |
| Server.HasCredentials | server.js:98-102 | the check both authentication routes make first; its contract is stated by `SignupRoute` and `SigninRoute` |
| Server.SignupData | server.js:104 | the `{ name }` the signup route passes on; its contract is stated by `SignupStoresPlainUser` |
| Server.SignupStoresPlainUser | server.js:98-104 | a user signed up through the server gets role `user`, the name given or else the email, and the hash of the password |
| Server.SignupRoute | server.js:96-116 | missing credentials give 400 before any statement; a failed insert gives 400 with its error and changes neither table; success appends the user under the next id and returns it with a token signed over `{userId, email}`, and appends the profile row under the next profile id unless its insert fails, which changes nothing there |
| Server.SigninRoute | server.js:118-138 | missing credentials give 400 before any statement; a failed sign-in gives 401 with its error; success returns the user with a token signed over its id and the email |
| Server.Override | server.js:143-146 | `{...body, key: value}` sets the key to the token's value, or drops it when that value is missing, and keeps every other field |
| Server.SubmitApplicationRoute | server.js:141-158 | the body, with `user_id` taken from the token, is submitted; the stored row is the one the body alone gives, since `user_id` is not stored, under the next id; 200 `报名提交成功` or 400 with the error, with the table and its next id unchanged |
| Server.ListApplicationsRoute | server.js:160-173 | 200 with the listing for the query's `status`, or 400 with the error |
| Server.UpdateStatusRoute | server.js:175-190 | the status update for the path's id and the body's status; 200 `状态更新成功` or 400 with the error; the next id never changes |
| Server.CreateProjectRoute | server.js:193-210 | the body, with `owner_id` replaced by the token's user id, is stored under the next id; 200 `项目创建成功` or 400 with the error, with the table and its next id unchanged |
| Server.ProjectOwnerFromToken | server.js:195-198 | the stored project's `owner_id` is the token's user id whatever owner the body names, and its other columns are the body's |
| Server.ListProjectsRoute | server.js:212-225 | 200 with the listing for the query's `userId`, with no token needed, or 400 with the error |
| Server.FileFilter | server.js:48-55 | multer's `fileFilter`, any `image/` type; its contract is stated by `Multer` and `WhitelistWithinFilter` |
| Server.Multer | server.js:35-56 | no file part is no file; a type not starting with `image/` is refused with `只允许上传图片文件`; the filter decides before the 5 MiB limit, and exactly the limit passes; an accepted file is named `timestamp_random` plus its extension |
| Server.FolderOf | server.js:234 | `req.body.folder || 'uploads'`; its contract is stated by `UploadReply` and `UploadPathsAgree` |
| Server.UploadReply | server.js:228-245 | a refused file reaches the error handler (500); no file gives 400 `没有上传文件`; otherwise `url == path == "/uploads/" + (folder or "uploads") + "/" + filename` |
| Server.UploadSucceedsExactly | server.js:228-241 | an upload succeeds exactly when an image within the limit is sent, and it is then served under the folder at multer's name |
| Server.UploadPathsAgree | server.js:234 | the server and `uploadFile` report the same path for a missing or non-empty folder, and different paths for an empty one (`||` against a default parameter) |
| Server.WhitelistWithinFilter | server.js:48-55 | every type the browser uploader accepts passes the server's filter, but `image/svg+xml` passes the filter and not the whitelist |
| Server.StatisticsRoute | server.js:248-260 | 200 with the statistics, or 400 when they fail |
| Server.UserRoute | server.js:263-275 | 200 with the token's user joined with its profile exactly when that user exists and the statement runs; otherwise 404 |

## Left out

- SQL drivers and SQL text: the tables are sequences of rows, and each statement takes the fault
  the driver reports, if any. The mysql2 connection's API (it has no `all`) is not modelled.
- LocalDatabase.LocalDatabaseApi.SignUp: `result.data.insertId` is a parameter. With sqlite3's
  `db.all` the result carries no `insertId`, so the id is the one the driver reports, not the table's key.
- LocalDatabase.LocalDatabaseApi.SignUp: a duplicate email is not rejected. A `UNIQUE` constraint
  in the schema would surface as a driver fault, and the schema is not part of this model.
- LocalDatabase.LocalDatabaseApi.GetUser: `u.*, up.*` merges the two rows into one object, where
  a profile column overrides a user column of the same name. The model returns the two rows
  side by side.
- LocalDatabase.LocalDatabaseApi.UpdateApplicationStatus and LocalDatabase.LocalDatabaseApi.GetProjects:
  SQLite compares a text id or `owner_id` with an integer column by numeric affinity. The model
  matches only plain decimal digits, so inputs such as `05`, `+5` or ` 5` match no row. The
  `owner_id` the server stores is the decimal text of the token's user id.
- LocalDatabase.LocalDatabaseApi.UploadFile: `path.join` normalisation of the folder (for
  instance `../x`) and the directory creation are file system behaviour, not modelled.
- `executeQuery`'s promise plumbing, and the `try/catch` paths that turn an unexpected exception
  into `{ success: false }` or a 500. Two thrown errors are modelled: a statement on a connected
  instance without a driver, and `bcrypt.compare` on a user row without a password hash.
- SupabaseBackend.GetStatistics: the four count queries run without synchronisation. The model
  counts one snapshot of the table.
- The Supabase client, storage bucket, signed and public URLs: their answers are parameters.
  `deleteFile`, `initBucket`, `adminLogin` and `testSupabaseConnection` are foreign network calls
  and are not modelled.
- `compressImage` and `previewImage` are canvas, FileReader and DOM code, with floating-point rescaling.
- bcrypt and JWT: the hash, `compare`, `sign` and `verify` are function parameters. The token's
  expiry is part of `verify`.
- The activity log's `localStorage` load and save, and all console output: the load is the
  `StoredLogs` parameter. `exportLogs('json')` is `JSON.stringify` and is not modelled.
- `Date.now()`, `Math.random()`, `crypto.randomBytes` and the floating-point entry id are
  parameters taken as given.
- Express setup, CORS, static serving, multer's `destination` directory creation and body parsing
  are not modelled. Neither are the 404 middleware, `app.listen` and the shutdown handler. Of the
  error middleware, only its answer to a file multer refuses is modelled.
- Paths.Extname: POSIX paths only; Windows separators are not modelled.
- Server.Multer: the order in which the `folder` field and the file part arrive in the form is
  not modelled. The folder is taken as the route sees it.
- LocalDatabase.LocalDatabaseApi.Init: `new sqlite3.Database(path)` opens the file in the
  background. A failure to open it is emitted later as an `error` event, after `init` has already
  reported success, and is not modelled; `fault` stands only for the errors `init`'s `catch` sees.
- Registry.SortNewestFirst, Registry.ListingIsSelection and SupabaseBackend.GetApplications: SQL
  leaves the order of rows with equal `created_at` open, and SQLite and Postgres may order them
  differently from one statement to another. The model keeps such rows in insertion order. So the
  filtered listing being the unfiltered one with rows removed, and the two backends giving the
  same listing, hold only up to the order of rows with equal `created_at`.
- Registry.Record: every column value is text. JSON bodies can also carry numbers, booleans,
  `null`, arrays and objects, and `owner_id` is set from a number. A falsy non-text value such as
  `0`, `false` or `null` would be replaced by `photo_url || ''`; the model would keep it.
- ActivityLog.ActivityLogger.GetLogs: a time bound or a stored timestamp that `new Date` cannot
  parse is Invalid Date in the source. Every comparison with it is false, so a time-filtered query
  drops that entry, or every entry for such a bound. The model treats every bound and every entry
  time as a valid instant.
- ActivityLog.ActivityLogger.GetStats: the counters are plain `{}` objects. A level or module named
  after an `Object.prototype` member reads an inherited value: `constructor` becomes a string, and
  a write to `__proto__` is ignored, so that key gets no count and the counts no longer sum to
  `total`. The model's counters are maps with no inherited keys.
