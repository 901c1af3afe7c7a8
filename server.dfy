/** The HTTP layer (server.js): the token gate, the upload filter and naming, and what each route
    answers, given the local backend and the answers of `jsonwebtoken` and `bcrypt`, which are
    function parameters. */
module Server {
  import opened Wrappers
  import opened Text
  import opened Registry
  import FileUpload
  import opened LocalDatabase

  const MissingToken := "访问令牌缺失"
  const InvalidToken := "访问令牌无效"
  const MissingCredentials := "邮箱和密码不能为空"
  const NoFileError := "没有上传文件"
  const ImagesOnlyError := "只允许上传图片文件"
  const ApplicationSubmitted := "报名提交成功"
  const StatusUpdated := "状态更新成功"
  const ProjectCreated := "项目创建成功"
  /** What the error-handling middleware answers. */
  const InternalError := "服务器内部错误"
  /** multer's `limits.fileSize`: 5 MiB. */
  const UploadSizeLimit: nat := 5 * 1024 * 1024

  /** What a token carries: the user's id (which may be missing) and email. */
  datatype Claims = Claims(userId: Option<nat>, email: string)

  /** The JSON body of a reply. */
  datatype Payload =
    | ErrorBody(error: string)
    | SignedUpBody(newUser: NewUser, token: string)
    | SignedInBody(user: UserView, token: string)
    | MessageBody(message: string)
    | RowsBody(rows: seq<Row>)
    | StatsBody(stats: Stats)
    | UserBody(joined: JoinedUser)
    | FileBody(url: string, path: string, fileName: string)

  datatype Reply = Reply(status: nat, payload: Payload)

  // ---------------------------------------------------------------------------------------
  // The token gate
  // ---------------------------------------------------------------------------------------

  /** `authHeader && authHeader.split(' ')[1]`, truthy: the second space-separated word. */
  function BearerToken(header: Option<string>): Option<string> {
    if header.None? || header.value == "" then None
    else
      var parts := Split(header.value, ' ');
      if |parts| < 2 || parts[1] == "" then None else Some(parts[1])
  }

  /** `Bearer <token>` yields the token, whatever follows it after another space; a header
      without a space yields none. */
  lemma BearerTokenOfHeader(scheme: string, token: string, rest: Option<string>)
    requires ' ' !in scheme && ' ' !in token && token != ""
    ensures BearerToken(Some(scheme + " " + token + if rest.Some? then " " + rest.value else "")) == Some(token)
    ensures BearerToken(Some(scheme)) == None
  {
    var tail := token + if rest.Some? then " " + rest.value else "";
    var h := scheme + " " + token + if rest.Some? then " " + rest.value else "";
    assert h == scheme + [' '] + tail;
    SplitAtFirstSeparator(scheme, ' ', tail);
    if rest.Some? {
      assert tail == token + [' '] + rest.value;
      SplitAtFirstSeparator(token, ' ', rest.value);
    } else {
      assert tail == token;
      SplitWithoutSeparator(token, ' ');
    }
    SplitWithoutSeparator(scheme, ' ');
  }

  /** What the gate decides: reject with a reply, or admit with the verified claims. */
  datatype Admission = Rejected(reply: Reply) | Admitted(user: Claims)

  /** `authenticateToken`: 401 without a token, 403 when `verify` refuses it, and otherwise the
      claims it yields. */
  function Authenticate(header: Option<string>, verify: string -> Option<Claims>): (r: Admission)
    ensures BearerToken(header).None? <==> r == Rejected(Reply(401, ErrorBody(MissingToken)))
    ensures (BearerToken(header).Some? && verify(BearerToken(header).value).None?)
            <==> r == Rejected(Reply(403, ErrorBody(InvalidToken)))
    ensures r.Admitted? <==> BearerToken(header).Some? && verify(BearerToken(header).value).Some?
    ensures r.Admitted? ==> r.user == verify(BearerToken(header).value).value
  {
    var token := BearerToken(header);
    if token.None? then Rejected(Reply(401, ErrorBody(MissingToken)))
    else
      match verify(token.value)
      case None => Rejected(Reply(403, ErrorBody(InvalidToken)))
      case Some(user) => Admitted(user)
  }

  /** A request as the gate sees it: the `Authorization` header, and `req.user`, which the gate
      sets. */
  class Request {
    const authorization: Option<string>
    var user: Option<Claims>

    constructor(authorization: Option<string>)
      ensures this.authorization == authorization && user == None
    {
      this.authorization := authorization;
      user := None;
    }
  }

  /** `authenticateToken(req, res, next)`: answers the request itself (`Some`), or sets
      `req.user` and passes it on (`None`). */
  method AuthenticateToken(req: Request, verify: string -> Option<Claims>) returns (reply: Option<Reply>)
    modifies req`user
    ensures match Authenticate(req.authorization, verify)
      case Rejected(rep) => reply == Some(rep) && req.user == old(req.user)
      case Admitted(user) => reply == None && req.user == Some(user)
  {
    var token := BearerToken(req.authorization);
    if token.None? {
      return Some(Reply(401, ErrorBody(MissingToken)));
    }
    var user := verify(token.value);
    if user.None? {
      return Some(Reply(403, ErrorBody(InvalidToken)));
    }
    req.user := user;
    reply := None;
  }

  // ---------------------------------------------------------------------------------------
  // Authentication routes
  // ---------------------------------------------------------------------------------------

  /** The rule both authentication routes check first. */
  predicate HasCredentials(body: Record) {
    Truthy(body, "email") && Truthy(body, "password")
  }

  /** The `userData` the signup route passes on: `{ name }`. */
  function SignupData(body: Record): Record {
    Project(body, {"name"})
  }

  /** A user signed up through the server has the role `user`, and the name given or, failing
      that, the email. */
  lemma SignupStoresPlainUser(body: Record, passwordHash: string)
    requires HasCredentials(body)
    ensures var rec := UserRecord(body["email"], passwordHash, SignupData(body));
      && rec["role"] == DefaultRole
      && rec["name"] == (if Truthy(body, "name") then body["name"] else body["email"])
      && rec["password_hash"] == passwordHash
  {
  }

  /** `POST /api/auth/signup`: 400 without credentials, before any statement; 400 with the error
      when the insert fails; otherwise the new user and a token signed over its id and email. */
  method SignupRoute(db: LocalDatabaseApi, body: Record, hash: string -> string, sign: Claims -> string,
                     insertId: Option<nat>, userFault: Option<string>, profileFault: Option<string>, now: int)
    returns (reply: Reply)
    requires db.Valid()
    modifies db.users, db.profiles
    ensures db.Valid()
    ensures !HasCredentials(body) ==>
      reply == Reply(400, ErrorBody(MissingCredentials))
      && db.users.rows == old(db.users.rows) && db.users.nextId == old(db.users.nextId)
      && db.profiles.rows == old(db.profiles.rows) && db.profiles.nextId == old(db.profiles.nextId)
    ensures HasCredentials(body) ==>
      var email := body["email"];
      var error := old(db.StatementError(userFault));
      if error.Some? then
        reply == Reply(400, ErrorBody(error.value))
        && db.users.rows == old(db.users.rows) && db.users.nextId == old(db.users.nextId)
        && db.profiles.rows == old(db.profiles.rows) && db.profiles.nextId == old(db.profiles.nextId)
      else
        && reply == Reply(200, SignedUpBody(NewUser(insertId, email), sign(Claims(insertId, email))))
        && db.users.rows == old(db.users.rows)
             + [Row(old(db.users.nextId), now, now, UserRecord(email, hash(body["password"]), SignupData(body)))]
        && db.users.nextId == old(db.users.nextId) + 1
        && (if profileFault.Some? then db.profiles.rows == old(db.profiles.rows) && db.profiles.nextId == old(db.profiles.nextId)
            else db.profiles.rows == old(db.profiles.rows)
                   + [Row(old(db.profiles.nextId), now, now, ProfileRecord(insertId, SignupData(body)))]
                 && db.profiles.nextId == old(db.profiles.nextId) + 1)
  {
    if !HasCredentials(body) {
      return Reply(400, ErrorBody(MissingCredentials));
    }
    var email := body["email"];
    var result := db.SignUp(email, hash(body["password"]), SignupData(body), insertId, userFault, profileFault, now);
    if result.Success? {
      var token := sign(Claims(result.value.id, email));
      reply := Reply(200, SignedUpBody(result.value, token));
    } else {
      reply := Reply(400, ErrorBody(result.error));
    }
  }

  /** `POST /api/auth/signin`: 400 without credentials, before any statement; 401 with the error
      when `signIn` fails; otherwise the user and a token signed over its id and email. */
  method SigninRoute(db: LocalDatabaseApi, body: Record, compare: (string, string) -> bool,
                     sign: Claims -> string, fault: Option<string>)
    returns (reply: Reply)
    ensures !HasCredentials(body) ==> reply == Reply(400, ErrorBody(MissingCredentials))
    ensures HasCredentials(body) ==>
      var email := body["email"];
      match SignInResult(db.StatementError(fault), db.Throws(), db.users.rows, email, body["password"], compare)
      case Success(user) => reply == Reply(200, SignedInBody(user, sign(Claims(Some(user.id), email))))
      case Failure(error) => reply == Reply(401, ErrorBody(error))
  {
    if !HasCredentials(body) {
      return Reply(400, ErrorBody(MissingCredentials));
    }
    var email := body["email"];
    var result := db.SignIn(email, body["password"], compare, fault);
    if result.Success? {
      reply := Reply(200, SignedInBody(result.value, sign(Claims(Some(result.value.id), email))));
    } else {
      reply := Reply(401, ErrorBody(result.error));
    }
  }

  // ---------------------------------------------------------------------------------------
  // Applications and projects
  // ---------------------------------------------------------------------------------------

  /** `{ ...body, key: value }`, where a missing `value` (`undefined`) stores nothing. */
  function Override(body: Record, key: string, value: Option<nat>): (r: Record)
    ensures value.Some? ==> key in r && r[key] == Decimal(value.value)
    ensures value.None? ==> key !in r
    ensures forall k :: k != key ==> (k in r <==> k in body) && (k in body ==> r[k] == body[k])
  {
    if value.Some? then body[key := Decimal(value.value)] else body - {key}
  }

  /** `POST /api/applications`: the body with the token's user id added, submitted. The id is
      not one of the stored columns, so the row is the one the body alone gives. */
  method SubmitApplicationRoute(db: LocalDatabaseApi, user: Claims, body: Record, fault: Option<string>, now: int)
    returns (reply: Reply)
    requires db.Valid()
    modifies db.applications
    ensures db.Valid()
    ensures var error := old(db.StatementError(fault));
      if error.Some? then
        reply == Reply(400, ErrorBody(error.value))
        && db.applications.rows == old(db.applications.rows) && db.applications.nextId == old(db.applications.nextId)
      else reply == Reply(200, MessageBody(ApplicationSubmitted))
           && db.applications.rows == old(db.applications.rows) + [Row(old(db.applications.nextId), now, now, ApplicationRecord(body))]
           && db.applications.nextId == old(db.applications.nextId) + 1
  {
    var data := Override(body, "user_id", user.userId);
    assert ApplicationRecord(data) == ApplicationRecord(body) by {
      assert Project(data, ApplicationFields) == Project(body, ApplicationFields);
    }
    var result := db.SubmitApplication(data, fault, now);
    if result.Done? {
      reply := Reply(200, MessageBody(ApplicationSubmitted));
    } else {
      reply := Reply(400, ErrorBody(result.error));
    }
  }

  /** `GET /api/applications?status=`: the listing, or 400 with the error. */
  method ListApplicationsRoute(db: LocalDatabaseApi, status: Option<string>, fault: Option<string>) returns (reply: Reply)
    ensures var error := db.StatementError(fault);
      reply == if error.Some? then Reply(400, ErrorBody(error.value))
               else Reply(200, RowsBody(Listing(db.applications.rows, StatusColumn, status.GetOr(""))))
  {
    var result := db.GetApplications(status.GetOr(""), fault);
    if result.Success? {
      reply := Reply(200, RowsBody(result.value));
    } else {
      reply := Reply(400, ErrorBody(result.error));
    }
  }

  /** `PUT /api/applications/:id/status`: updates the status the body gives (any value, or
      none). */
  method UpdateStatusRoute(db: LocalDatabaseApi, id: string, status: Option<string>, fault: Option<string>, now: int)
    returns (reply: Reply)
    requires db.Valid()
    modifies db.applications
    ensures db.Valid()
    ensures db.applications.nextId == old(db.applications.nextId)
    ensures var error := old(db.StatementError(fault));
      var key := ParseDecimal(id);
      if error.Some? then
        reply == Reply(400, ErrorBody(error.value)) && db.applications.rows == old(db.applications.rows)
      else
        && reply == Reply(200, MessageBody(StatusUpdated))
        && db.applications.rows == if key.Some? then WithStatus(old(db.applications.rows), key.value, status, Some(now))
                                   else old(db.applications.rows)
  {
    var result := db.UpdateApplicationStatus(id, status, fault, now);
    if result.Done? {
      reply := Reply(200, MessageBody(StatusUpdated));
    } else {
      reply := Reply(400, ErrorBody(result.error));
    }
  }

  /** `POST /api/projects`: the body with `owner_id` replaced by the token's user id. */
  method CreateProjectRoute(db: LocalDatabaseApi, user: Claims, body: Record, fault: Option<string>, now: int)
    returns (reply: Reply)
    requires db.Valid()
    modifies db.projects
    ensures db.Valid()
    ensures var error := old(db.StatementError(fault));
      if error.Some? then
        reply == Reply(400, ErrorBody(error.value))
        && db.projects.rows == old(db.projects.rows) && db.projects.nextId == old(db.projects.nextId)
      else reply == Reply(200, MessageBody(ProjectCreated))
           && db.projects.rows == old(db.projects.rows)
                + [Row(old(db.projects.nextId), now, now, ProjectRecord(Override(body, "owner_id", user.userId)))]
           && db.projects.nextId == old(db.projects.nextId) + 1
  {
    var data := Override(body, "owner_id", user.userId);
    var result := db.CreateProject(data, fault, now);
    if result.Done? {
      reply := Reply(200, MessageBody(ProjectCreated));
    } else {
      reply := Reply(400, ErrorBody(result.error));
    }
  }

  /** The stored project's owner is the token's user, whatever owner the body names; its other
      columns are the body's. */
  lemma ProjectOwnerFromToken(body: Record, userId: Option<nat>)
    ensures var rec := ProjectRecord(Override(body, "owner_id", userId));
      && (userId.Some? ==> "owner_id" in rec && rec["owner_id"] == Decimal(userId.value))
      && (userId.None? ==> "owner_id" !in rec)
      && (forall k :: k in ProjectFields && k != "owner_id" ==> (k in rec <==> k in body))
      && (forall k :: k in ProjectFields && k != "owner_id" && k in body ==> rec[k] == body[k])
  {
  }

  /** `GET /api/projects?userId=`: the listing, or 400 with the error. It needs no token. */
  method ListProjectsRoute(db: LocalDatabaseApi, userId: Option<string>, fault: Option<string>) returns (reply: Reply)
    ensures var error := db.StatementError(fault);
      reply == if error.Some? then Reply(400, ErrorBody(error.value))
               else Reply(200, RowsBody(Listing(db.projects.rows, "owner_id", userId.GetOr(""))))
  {
    var result := db.GetProjects(userId.GetOr(""), fault);
    if result.Success? {
      reply := Reply(200, RowsBody(result.value));
    } else {
      reply := Reply(400, ErrorBody(result.error));
    }
  }

  // ---------------------------------------------------------------------------------------
  // Upload
  // ---------------------------------------------------------------------------------------

  /** A file part as multer receives it. */
  datatype Incoming = Incoming(originalName: string, mimeType: string, size: nat)

  /** How multer ends: no file part, the filter refused it, it is over the limit, or it is
      stored under the name given. */
  datatype MulterOutcome = NoFile | FilterRefused(error: string) | TooLarge | Stored(fileName: string)

  /** The `fileFilter`: any `image/` type. */
  predicate FileFilter(mimeType: string) {
    StartsWith(mimeType, "image/")
  }

  /** What multer does with the `file` part: the filter first, then the size limit (a file of
      exactly the limit passes), then the `filename` rule, which is the local backend's. */
  function Multer(file: Option<Incoming>, timestamp: nat, random: string): (r: MulterOutcome)
    ensures file.None? <==> r == NoFile
    ensures r.FilterRefused? <==> file.Some? && !FileFilter(file.value.mimeType)
    ensures r.FilterRefused? ==> r.error == ImagesOnlyError
    ensures r == TooLarge <==> file.Some? && FileFilter(file.value.mimeType) && file.value.size > UploadSizeLimit
    ensures r.Stored? ==> r.fileName == StoredName(timestamp, random, file.value.originalName)
  {
    if file.None? then NoFile
    else if !FileFilter(file.value.mimeType) then FilterRefused(ImagesOnlyError)
    else if file.value.size > UploadSizeLimit then TooLarge
    else Stored(StoredName(timestamp, random, file.value.originalName))
  }

  /** `req.body.folder || 'uploads'`. */
  function FolderOf(folder: Option<string>): string {
    if folder.Some? && folder.value != "" then folder.value else DefaultFolder
  }

  /** `POST /api/upload`: a file multer refused reaches the error handler (500); without a
      file the route answers 400; otherwise it reports where the file is served. */
  function UploadReply(outcome: MulterOutcome, folder: Option<string>): (reply: Reply)
    ensures (outcome.FilterRefused? || outcome.TooLarge?) ==> reply == Reply(500, ErrorBody(InternalError))
    ensures outcome.NoFile? ==> reply == Reply(400, ErrorBody(NoFileError))
    ensures outcome.Stored? ==>
      && reply.status == 200 && reply.payload.FileBody?
      && reply.payload.url == reply.payload.path == UploadPath(FolderOf(folder), outcome.fileName)
      && reply.payload.fileName == outcome.fileName
  {
    match outcome
    case FilterRefused(_) => Reply(500, ErrorBody(InternalError))
    case TooLarge => Reply(500, ErrorBody(InternalError))
    case NoFile => Reply(400, ErrorBody(NoFileError))
    case Stored(fileName) =>
      var url := UploadPath(FolderOf(folder), fileName);
      Reply(200, FileBody(url, url, fileName))
  }

  /** An upload succeeds exactly when an image within the limit is sent, and it is then served
      under the folder asked for at the name multer gave it. */
  lemma UploadSucceedsExactly(file: Option<Incoming>, timestamp: nat, random: string, folder: Option<string>)
    ensures var reply := UploadReply(Multer(file, timestamp, random), folder);
      && (reply.status == 200 <==>
            file.Some? && FileFilter(file.value.mimeType) && file.value.size <= UploadSizeLimit)
      && (reply.status == 200 ==>
            reply.payload == FileBody(UploadPath(FolderOf(folder), StoredName(timestamp, random, file.value.originalName)),
                                      UploadPath(FolderOf(folder), StoredName(timestamp, random, file.value.originalName)),
                                      StoredName(timestamp, random, file.value.originalName)))
  {
  }

  /** The server and `uploadFile` report the same path when the folder is missing or non-empty;
      for an empty folder the server falls back to `uploads` (`||`) and `uploadFile` keeps it
      (a default parameter replaces only `undefined`). */
  lemma UploadPathsAgree(folder: Option<string>, fileName: string)
    ensures (folder.None? || folder.value != "") ==> UploadPath(FolderOf(folder), fileName) == UploadPath(folder.GetOr(DefaultFolder), fileName)
    ensures folder == Some("") ==> UploadPath(FolderOf(folder), fileName) != UploadPath(folder.GetOr(DefaultFolder), fileName)
  {
    if folder == Some("") {
      var s, l := UploadPath(FolderOf(folder), fileName), UploadPath(folder.GetOr(DefaultFolder), fileName);
      assert s[9] == 'u' && l[9] == '/';
    }
  }

  /** Every type the browser uploader accepts passes the server's filter, but not conversely. */
  lemma WhitelistWithinFilter(f: FileUpload.ImageFile)
    ensures FileUpload.IsValidImage(f) ==> FileFilter(f.mimeType)
    ensures FileFilter("image/svg+xml") && !FileUpload.IsValidImage(f.(mimeType := "image/svg+xml"))
  {
    assert "image/svg+xml"[..6] == "image/";
  }

  // ---------------------------------------------------------------------------------------
  // Statistics and the user
  // ---------------------------------------------------------------------------------------

  /** `GET /api/statistics`. */
  method StatisticsRoute(db: LocalDatabaseApi, totalFault: Option<string>, pendingFault: Option<string>,
                         approvedFault: Option<string>, rejectedFault: Option<string>) returns (reply: Reply)
    ensures reply == if db.Throws() then Reply(400, ErrorBody(NoDriver))
      else Reply(200, StatsBody(StatsAfter(db.applications.rows, db.StatementError(totalFault).Some?,
                                           db.StatementError(pendingFault).Some?, db.StatementError(approvedFault).Some?,
                                           db.StatementError(rejectedFault).Some?)))
  {
    var result := db.GetStatistics(totalFault, pendingFault, approvedFault, rejectedFault);
    if result.Success? {
      reply := Reply(200, StatsBody(result.value));
    } else {
      reply := Reply(400, ErrorBody(result.error));
    }
  }

  /** `GET /api/user`: the token's user, or 404. */
  method UserRoute(db: LocalDatabaseApi, user: Claims, fault: Option<string>) returns (reply: Reply)
    ensures reply.status == 200 || reply.status == 404
    ensures reply.status == 200 <==>
      db.StatementError(fault).None? && user.userId.Some?
      && exists i :: 0 <= i < |db.users.rows| && db.users.rows[i].id == user.userId.value
    ensures reply.status == 200 ==>
      && reply.payload.UserBody? && reply.payload.joined.user in db.users.rows
      && reply.payload.joined.user.id == user.userId.value
  {
    var result := db.GetUser(user.userId, fault);
    if result.Success? {
      reply := Reply(200, UserBody(result.value));
    } else {
      reply := Reply(404, ErrorBody(result.error));
    }
  }
}
