/** The local backend (`LocalDatabaseAPI`): the registry tables behind a connection flag, with
    every statement passing the connection gate of `executeQuery`. The SQL driver is an oracle:
    each statement takes a `fault`, the error the driver reports for it, if any. */
module LocalDatabase {
  import opened Wrappers
  import opened Seqs
  import opened Text
  import opened Registry
  import Paths

  const NotConnected := "数据库未连接"
  /** What a query throws when the instance is marked connected but holds no driver. */
  const NoDriver := "Cannot read properties of null (reading 'all')"
  /** What `bcrypt.compare` throws for a missing hash. */
  const HashMissing := "data and hash arguments required"
  const UnknownUser := "用户不存在"
  const WrongPassword := "密码错误"
  const DefaultRole := "user"
  const DefaultFolder := "uploads"

  /** The columns `submitApplication` copies from the form, besides `photo_url` and `status`. */
  const ApplicationFields: set<string> :=
    {"name", "student_id", "major", "email", "phone", "department", "skills", "experience", "motivation"}

  /** The columns `createProject` copies. */
  const ProjectFields: set<string> :=
    {"name", "description", "category", "image_url", "doc_url", "ppt_url", "other_attachment_url", "owner_id"}

  /** The columns `createUserProfile` copies, besides `user_id` and `role`. */
  const ProfileFields: set<string> :=
    {"name", "student_id", "major", "grade", "email", "phone", "birthday", "qq", "bio", "avatar_url", "introduction"}

  /** `data.key || fallback`. */
  function OrDefault(data: Record, key: string, fallback: string): string {
    if Truthy(data, key) then data[key] else fallback
  }

  /** The row `submitApplication` inserts. */
  function ApplicationRecord(data: Record): Record {
    Project(data, ApplicationFields)["photo_url" := OrDefault(data, "photo_url", "")][StatusColumn := Pending]
  }

  /** The inserted application is pending whatever the form says, has a `photo_url` (empty
      unless the form gives one), copies the nine form columns exactly and holds nothing else;
      in particular no `user_id`. */
  lemma ApplicationRecordShape(data: Record)
    ensures var r := ApplicationRecord(data);
      && r[StatusColumn] == Pending
      && r["photo_url"] == (if Truthy(data, "photo_url") then data["photo_url"] else "")
      && r.Keys == (data.Keys * ApplicationFields) + {"photo_url", StatusColumn}
      && (forall k :: k in ApplicationFields ==> (k in r <==> k in data))
      && (forall k :: k in ApplicationFields && k in data ==> r[k] == data[k])
      && "user_id" !in r
  {
  }

  /** Fields outside the stored columns, such as a `user_id` or a client `status`, do not reach
      the row. */
  lemma ApplicationRecordIgnoresOtherFields(data: Record, k: string, v: string)
    requires k !in ApplicationFields && k != "photo_url"
    ensures ApplicationRecord(data[k := v]) == ApplicationRecord(data)
  {
    assert Project(data[k := v], ApplicationFields) == Project(data, ApplicationFields);
  }

  /** The row `createProject` inserts: the eight project columns, as given. */
  function ProjectRecord(data: Record): Record {
    Project(data, ProjectFields)
  }

  /** The row `signUp` inserts into `users`. */
  function UserRecord(email: string, passwordHash: string, userData: Record): Record {
    map["email" := email, "password_hash" := passwordHash,
        "name" := OrDefault(userData, "name", email), "role" := OrDefault(userData, "role", DefaultRole)]
  }

  /** The row `createUserProfile` inserts: `user_id` is the id `signUp` was given (`NULL` when the
      driver reported none). */
  function ProfileRecord(userId: Option<nat>, userData: Record): Record {
    var base := Project(userData, ProfileFields)["role" := OrDefault(userData, "role", DefaultRole)];
    if userId.Some? then base["user_id" := Decimal(userId.value)] else base
  }

  /** The profile row holds the profile columns the form gives, with their values, the role
      (defaulting to `user`) and, when the driver reported an id, `user_id` as that id's text. */
  lemma ProfileRecordShape(userId: Option<nat>, userData: Record)
    ensures var r := ProfileRecord(userId, userData);
      && r.Keys == (userData.Keys * ProfileFields) + {"role"} + (if userId.Some? then {"user_id"} else {})
      && (forall k :: k in ProfileFields && k in userData ==> r[k] == userData[k])
      && r["role"] == OrDefault(userData, "role", DefaultRole)
      && (userId.Some? ==> r["user_id"] == Decimal(userId.value))
  {
  }

  /** What `signIn` reports: the user's columns without the password hash. */
  datatype UserView = UserView(id: nat, email: string, name: Option<string>, role: Option<string>)

  /** What `signUp` reports: the id the driver gave back, and the email. */
  datatype NewUser = NewUser(id: Option<nat>, email: string)

  /** `getUser`: the user row and, from the `LEFT JOIN`, the first profile row for it. */
  datatype JoinedUser = JoinedUser(user: Row, profile: Option<Row>)

  /** What `uploadFile` reports. */
  datatype Uploaded = Uploaded(url: string, path: string, fileName: string)

  /** A file as `uploadFile` receives it. */
  datatype LocalFile = LocalFile(name: string, data: seq<bv8>)

  /** The first row the statement `SELECT ... WHERE p` returns. */
  function FirstWhere(rows: seq<Row>, p: Row -> bool): (r: Option<Row>)
    ensures r.Some? <==> exists i :: 0 <= i < |rows| && p(rows[i])
    ensures r.Some? ==> r.value in rows && p(r.value)
  {
    var found := Filter(rows, p);
    FilterCount(rows, p, if |found| > 0 then found[0] else if |rows| > 0 then rows[0] else Row(0, 0, 0, map[]));
    if |found| > 0 then
      assert found[0] in found;
      Some(found[0])
    else
      assert forall i :: 0 <= i < |rows| ==> !p(rows[i]) by {
        forall i | 0 <= i < |rows| ensures !p(rows[i]) {
          FilterCount(rows, p, rows[i]);
          assert rows[i] in multiset(rows);
        }
      }
      None
  }

  function IdIs(id: nat): Row -> bool { (r: Row) => r.id == id }

  function Lookup(rec: Record, key: string): Option<string> {
    if key in rec then Some(rec[key]) else None
  }

  /** How `signIn` ends, given the error its query ended with (if any), whether that error
      was thrown rather than reported, and the users table. */
  function SignInResult(error: Option<string>, thrown: bool, users: seq<Row>, email: string,
                        password: string, compare: (string, string) -> bool): Result<UserView>
  {
    if error.Some? then (if thrown then Failure(error.value) else Failure(UnknownUser))
    else match FirstWhere(users, FieldIs("email", email))
      case None => Failure(UnknownUser)
      case Some(u) =>
        if "password_hash" !in u.record then Failure(HashMissing)
        else if !compare(password, u.record["password_hash"]) then Failure(WrongPassword)
        else Success(UserView(u.id, email, Lookup(u.record, "name"), Lookup(u.record, "role")))
  }

  /** A user that signed up can sign in with a password matching the stored hash, and gets the
      id, email, name and role it was stored with; a non-matching password is refused. */
  lemma SignInFindsSignedUpUser(users: seq<Row>, row: Row, email: string, hash: string, userData: Record,
                                password: string, compare: (string, string) -> bool)
    requires row.record == UserRecord(email, hash, userData)
    requires forall i :: 0 <= i < |users| ==> !FieldIs("email", email)(users[i])
    ensures SignInResult(None, false, users + [row], email, password, compare) ==
      if compare(password, hash)
      then Success(UserView(row.id, email, Some(OrDefault(userData, "name", email)),
                            Some(OrDefault(userData, "role", DefaultRole))))
      else Failure(WrongPassword)
  {
    var all := users + [row];
    assert all[|users|] == row;
    assert FieldIs("email", email)(row);
    var found := FirstWhere(all, FieldIs("email", email));
    assert found == Some(row) by {
      assert found.Some?;
      assert found.value in all;
      var k :| 0 <= k < |all| && all[k] == found.value;
      if k < |users| {
        assert all[k] == users[k];
      }
    }
  }

  /** An email no user has is refused as an unknown user, and a refused query reads the same. */
  lemma SignInUnknownEmail(users: seq<Row>, email: string, password: string, compare: (string, string) -> bool)
    requires forall i :: 0 <= i < |users| ==> !FieldIs("email", email)(users[i])
    ensures SignInResult(None, false, users, email, password, compare) == Failure(UnknownUser)
    ensures SignInResult(Some(NotConnected), false, users, email, password, compare) == Failure(UnknownUser)
  {
  }

  /** The counts of `getStatistics` once its four queries have ended, `failed` telling which of
      them ended with an error: a failed count reads 0. */
  function StatsAfter(rows: seq<Row>, totalFailed: bool, pendingFailed: bool, approvedFailed: bool,
                      rejectedFailed: bool): Stats
  {
    Stats(if totalFailed then 0 else |rows|,
          if pendingFailed then 0 else CountWhere(rows, StatusColumn, Pending),
          if approvedFailed then 0 else CountWhere(rows, StatusColumn, Approved),
          if rejectedFailed then 0 else CountWhere(rows, StatusColumn, Rejected))
  }

  /** With the total counted, no status count exceeds it; with all four counted, the status
      counts add up to at most the total, and to exactly the total when every application has
      one of the three statuses. A failed count reads 0. */
  lemma StatsAfterBounds(rows: seq<Row>, ft: bool, fp: bool, fa: bool, fr: bool)
    ensures var s := StatsAfter(rows, ft, fp, fa, fr);
      && (ft ==> s.total == 0) && (fp ==> s.pending == 0) && (fa ==> s.approved == 0) && (fr ==> s.rejected == 0)
      && (!ft ==> s.total == |rows| && s.pending <= s.total && s.approved <= s.total && s.rejected <= s.total)
      && (!ft && !fp && !fa && !fr ==> s.pending + s.approved + s.rejected <= s.total)
      && (!ft && !fp && !fa && !fr ==>
            (s.pending + s.approved + s.rejected == s.total <==> forall i :: 0 <= i < |rows| ==> Counted(rows[i])))
  {
    StatusCountsMakeUpTotal(rows);
  }

  /** The stored name of an uploaded file: `${timestamp}_${random}${extension}`. */
  function StoredName(timestamp: nat, random: string, originalName: string): string {
    Decimal(timestamp) + "_" + random + Paths.Extname(originalName)
  }

  /** The relative path an upload is reported under. */
  function UploadPath(folder: string, fileName: string): string {
    "/uploads/" + folder + "/" + fileName
  }

  /** The stored name starts with the timestamp, which reads back from the text before its
      first `_`. */
  lemma StoredNameReadsBack(timestamp: nat, random: string, originalName: string)
    ensures ParseDecimal(Before(StoredName(timestamp, random, originalName), '_')) == Some(timestamp)
  {
    StampedNameParts(timestamp, random, Paths.Extname(originalName));
  }

  /** The stored name ends with the extension of the original name. */
  lemma StoredNameEndsWithExtension(timestamp: nat, random: string, originalName: string)
    ensures var n := StoredName(timestamp, random, originalName);
      n[|n| - |Paths.Extname(originalName)|..] == Paths.Extname(originalName)
  {
    StampedNameParts(timestamp, random, Paths.Extname(originalName));
  }

  /** Two uploads at different instants get different names. */
  lemma StoredNamesDiffer(t1: nat, t2: nat, r1: string, r2: string, n1: string, n2: string)
    requires t1 != t2
    ensures StoredName(t1, r1, n1) != StoredName(t2, r2, n2)
  {
    StoredNameReadsBack(t1, r1, n1);
    StoredNameReadsBack(t2, r2, n2);
  }

  /** `LocalDatabaseAPI`: the connection flag, whether a driver handle is held (`this.db`), the
      four tables the statements reach, and the files `uploadFile` has written, by path. */
  class LocalDatabaseApi {
    var isConnected: bool
    var hasDriver: bool
    const applications: Table
    const projects: Table
    const users: Table
    const profiles: Table
    var files: map<string, seq<bv8>>

    ghost predicate Valid()
      reads this, applications, projects, users, profiles
    {
      && applications.Valid() && projects.Valid() && users.Valid() && profiles.Valid()
      && applications != projects && applications != users && applications != profiles
      && projects != users && projects != profiles && users != profiles
    }

    /** `new LocalDatabaseAPI()`: no driver, not connected. */
    constructor()
      ensures Valid() && !isConnected && !hasDriver && files == map[]
      ensures applications.rows == [] && projects.rows == [] && users.rows == [] && profiles.rows == []
      ensures fresh(applications) && fresh(projects) && fresh(users) && fresh(profiles)
    {
      isConnected := false;
      hasDriver := false;
      applications := new Table();
      projects := new Table();
      users := new Table();
      profiles := new Table();
      files := map[];
    }

    /** The error a statement ends with: the gate of `executeQuery` refuses it when the instance
        is not connected, it throws when there is no driver, and otherwise the driver decides. */
    function StatementError(fault: Option<string>): Option<string>
      reads this
    {
      if !isConnected then Some(NotConnected) else if !hasDriver then Some(NoDriver) else fault
    }

    /** Whether a statement throws instead of reporting its error. */
    predicate Throws()
      reads this
    {
      isConnected && !hasDriver
    }

    /** `init(databaseType = 'sqlite')`: a known type sets up a driver. `fault` is an error the
        `catch` sees (a failing `require`, a rejected mysql connection); any other type marks the
        instance connected without a driver. */
    method Init(databaseType: string := "sqlite", fault: Option<string>) returns (r: Outcome)
      modifies this`isConnected, this`hasDriver
      ensures var known := databaseType == "sqlite" || databaseType == "mysql";
        if known && fault.Some?
        then r == Failed(fault.value) && isConnected == old(isConnected) && hasDriver == old(hasDriver)
        else r == Done && isConnected && hasDriver == (old(hasDriver) || known)
    {
      if databaseType == "sqlite" || databaseType == "mysql" {
        if fault.Some? {
          return Failed(fault.value);
        }
        hasDriver := true;
      }
      isConnected := true;
      r := Done;
    }

    /** `close()`: disconnects, when a driver is held. */
    method Close()
      modifies this`isConnected
      ensures isConnected == (old(isConnected) && !hasDriver)
    {
      if hasDriver {
        isConnected := false;
      }
    }

    /** `signUp(email, password, userData)`: `passwordHash` is what bcrypt made of the password
        and `insertId` what the driver reports as the new row's id. The user row is inserted;
        then the profile row, whose outcome is ignored. */
    method SignUp(email: string, passwordHash: string, userData: Record, insertId: Option<nat>,
                  userFault: Option<string>, profileFault: Option<string>, now: int)
      returns (r: Result<NewUser>)
      requires Valid()
      modifies users, profiles
      ensures Valid()
      ensures var error := old(StatementError(userFault));
        if error.Some? then
          r == Failure(error.value) && users.rows == old(users.rows) && users.nextId == old(users.nextId)
          && profiles.rows == old(profiles.rows) && profiles.nextId == old(profiles.nextId)
        else
          && r == Success(NewUser(insertId, email))
          && users.rows == old(users.rows) + [Row(old(users.nextId), now, now, UserRecord(email, passwordHash, userData))]
          && users.nextId == old(users.nextId) + 1
          && (if profileFault.Some? then profiles.rows == old(profiles.rows) && profiles.nextId == old(profiles.nextId)
              else profiles.rows == old(profiles.rows) + [Row(old(profiles.nextId), now, now, ProfileRecord(insertId, userData))]
                   && profiles.nextId == old(profiles.nextId) + 1)
    {
      var error := StatementError(userFault);
      if error.Some? {
        return Failure(error.value);
      }
      var _ := users.Insert(UserRecord(email, passwordHash, userData), now);
      if StatementError(profileFault).None? {
        var _ := profiles.Insert(ProfileRecord(insertId, userData), now);
      }
      r := Success(NewUser(insertId, email));
    }

    /** `signIn(email, password)`, with `compare` standing for `bcrypt.compare`. */
    method SignIn(email: string, password: string, compare: (string, string) -> bool, fault: Option<string>)
      returns (r: Result<UserView>)
      ensures r == SignInResult(StatementError(fault), Throws(), users.rows, email, password, compare)
    {
      var error := StatementError(fault);
      if error.Some? {
        if Throws() {
          return Failure(error.value);
        }
        return Failure(UnknownUser);
      }
      var found := FirstWhere(users.rows, FieldIs("email", email));
      if found.None? {
        return Failure(UnknownUser);
      }
      var user := found.value;
      if "password_hash" !in user.record {
        return Failure(HashMissing);
      }
      if !compare(password, user.record["password_hash"]) {
        return Failure(WrongPassword);
      }
      r := Success(UserView(user.id, email, Lookup(user.record, "name"), Lookup(user.record, "role")));
    }

    /** `getUser(userId)`: the user with that id, joined with its profile. A reported error reads
        as an unknown user; a thrown one is passed on. */
    method GetUser(userId: Option<nat>, fault: Option<string>) returns (r: Result<JoinedUser>)
      ensures var error := StatementError(fault);
        && (error.Some? ==> r == Failure(if Throws() then error.value else UnknownUser))
        && ((error.None? && (userId.None? || forall i :: 0 <= i < |users.rows| ==> users.rows[i].id != userId.value))
            ==> r == Failure(UnknownUser))
        && (r.Success? ==> error.None? && userId.Some? && r.value.user in users.rows && r.value.user.id == userId.value)
        && (r.Success? ==> r.value.profile == FirstWhere(profiles.rows, FieldIs("user_id", Decimal(userId.value))))
        && ((error.None? && userId.Some? && exists i :: 0 <= i < |users.rows| && users.rows[i].id == userId.value)
            ==> r.Success?)
    {
      var error := StatementError(fault);
      if error.Some? {
        return Failure(if Throws() then error.value else UnknownUser);
      }
      if userId.None? {
        return Failure(UnknownUser);
      }
      var found := FirstWhere(users.rows, IdIs(userId.value));
      if found.None? {
        return Failure(UnknownUser);
      }
      r := Success(JoinedUser(found.value, FirstWhere(profiles.rows, FieldIs("user_id", Decimal(userId.value)))));
    }

    /** `submitApplication(data)`: inserts one pending row. */
    method SubmitApplication(data: Record, fault: Option<string>, now: int) returns (r: Outcome)
      requires Valid()
      modifies applications
      ensures Valid()
      ensures var error := old(StatementError(fault));
        if error.Some? then r == Failed(error.value) && applications.rows == old(applications.rows)
                            && applications.nextId == old(applications.nextId)
        else r == Done && applications.nextId == old(applications.nextId) + 1
             && applications.rows == old(applications.rows) + [Row(old(applications.nextId), now, now, ApplicationRecord(data))]
    {
      var error := StatementError(fault);
      if error.Some? {
        return Failed(error.value);
      }
      var _ := applications.Insert(ApplicationRecord(data), now);
      r := Done;
    }

    /** `getApplications(status)`: newest first, only the rows with that status when it is truthy. */
    method GetApplications(status: string, fault: Option<string>) returns (r: Result<seq<Row>>)
      ensures var error := StatementError(fault);
        r == if error.Some? then Failure(error.value) else Success(Listing(applications.rows, StatusColumn, status))
    {
      var error := StatementError(fault);
      if error.Some? {
        return Failure(error.value);
      }
      if status != "" {
        r := Success(SortNewestFirst(Filter(applications.rows, FieldIs(StatusColumn, status))));
      } else {
        r := Success(SortNewestFirst(applications.rows));
      }
    }

    /** `updateApplicationStatus(id, status)`: sets the status and refreshes `updated_at` of the
        row whose id the text `id` denotes; any status, or none, is accepted. */
    method UpdateApplicationStatus(id: string, status: Option<string>, fault: Option<string>, now: int)
      returns (r: Outcome)
      requires Valid()
      modifies applications
      ensures Valid()
      ensures applications.nextId == old(applications.nextId)
      ensures var error := old(StatementError(fault));
        var key := ParseDecimal(id);
        if error.Some? then
          r == Failed(error.value) && applications.rows == old(applications.rows)
        else if key.Some? then
          r == Done && applications.rows == WithStatus(old(applications.rows), key.value, status, Some(now))
        else
          r == Done && applications.rows == old(applications.rows)
    {
      var error := StatementError(fault);
      if error.Some? {
        return Failed(error.value);
      }
      var key := ParseDecimal(id);
      if key.Some? {
        applications.UpdateStatus(key.value, status, Some(now));
      }
      r := Done;
    }

    /** `createProject(data)`: inserts one row of the eight project columns. */
    method CreateProject(data: Record, fault: Option<string>, now: int) returns (r: Outcome)
      requires Valid()
      modifies projects
      ensures Valid()
      ensures var error := old(StatementError(fault));
        if error.Some? then r == Failed(error.value) && projects.rows == old(projects.rows)
                            && projects.nextId == old(projects.nextId)
        else r == Done && projects.nextId == old(projects.nextId) + 1
             && projects.rows == old(projects.rows) + [Row(old(projects.nextId), now, now, ProjectRecord(data))]
    {
      var error := StatementError(fault);
      if error.Some? {
        return Failed(error.value);
      }
      var _ := projects.Insert(ProjectRecord(data), now);
      r := Done;
    }

    /** `getProjects(userId)`: newest first, only that owner's projects when `userId` is truthy. */
    method GetProjects(userId: string, fault: Option<string>) returns (r: Result<seq<Row>>)
      ensures var error := StatementError(fault);
        r == if error.Some? then Failure(error.value) else Success(Listing(projects.rows, "owner_id", userId))
    {
      var error := StatementError(fault);
      if error.Some? {
        return Failure(error.value);
      }
      if userId != "" {
        r := Success(SortNewestFirst(Filter(projects.rows, FieldIs("owner_id", userId))));
      } else {
        r := Success(SortNewestFirst(projects.rows));
      }
    }

    /** `uploadFile(file, folder)`: writes the file under a fresh name and reports where. It needs
        no connection; `fault` is a file system error. */
    method UploadFile(file: LocalFile, folder: Option<string>, timestamp: nat, random: string, fault: Option<string>)
      returns (r: Result<Uploaded>)
      modifies this`files
      ensures var name := StoredName(timestamp, random, file.name);
              var path := UploadPath(folder.GetOr(DefaultFolder), name);
        if fault.Some? then r == Failure(fault.value) && files == old(files)
        else r == Success(Uploaded(path, path, name)) && files == old(files)[path := file.data]
    {
      var dir := folder.GetOr(DefaultFolder);
      var fileName := StoredName(timestamp, random, file.name);
      if fault.Some? {
        return Failure(fault.value);
      }
      var relativePath := UploadPath(dir, fileName);
      files := files[relativePath := file.data];
      r := Success(Uploaded(relativePath, relativePath, fileName));
    }

    /** `getStatistics()`: the four counts, each 0 when its query reports an error; a thrown
        error fails the whole call. */
    method GetStatistics(totalFault: Option<string>, pendingFault: Option<string>,
                         approvedFault: Option<string>, rejectedFault: Option<string>)
      returns (r: Result<Stats>)
      ensures r == if Throws() then Failure(NoDriver)
        else Success(StatsAfter(applications.rows, StatementError(totalFault).Some?, StatementError(pendingFault).Some?,
                                StatementError(approvedFault).Some?, StatementError(rejectedFault).Some?))
    {
      if Throws() {
        return Failure(NoDriver);
      }
      var stats := Stats(0, 0, 0, 0);
      var rows := applications.rows;
      if StatementError(totalFault).None? {
        stats := stats.(total := |rows|);
      }
      if StatementError(pendingFault).None? {
        stats := stats.(pending := |Filter(rows, FieldIs(StatusColumn, Pending))|);
      }
      if StatementError(approvedFault).None? {
        stats := stats.(approved := |Filter(rows, FieldIs(StatusColumn, Approved))|);
      }
      if StatementError(rejectedFault).None? {
        stats := stats.(rejected := |Filter(rows, FieldIs(StatusColumn, Rejected))|);
      }
      r := Success(stats);
    }
  }

  /** On a disconnected instance every statement ends with the gate's message, reported rather
      than thrown. */
  lemma DisconnectedRefusesAll(db: LocalDatabaseApi, fault: Option<string>)
    requires !db.isConnected
    ensures db.StatementError(fault) == Some(NotConnected) && !db.Throws()
  {
  }
}
