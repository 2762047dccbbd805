/**
 * The user service: a `users` table with columns name and email (email
 * unique), keyed by a generated id. A database failure other than a missing
 * row or a duplicate email is a `dbOk == false` parameter.
 */
module UserServer {
  import opened Wrappers
  import opened Grpc
  import opened StrConv
  import opened Pgx

  /** `pb.UserResponse`. */
  datatype User = User(id: int, name: string, email: string)

  datatype CreateUserRequest = CreateUserRequest(name: string, email: string)
  datatype GetUserRequest = GetUserRequest(userId: string)

  datatype UserRow = UserRow(name: string, email: string)

  /** The unique constraint on the email column: no two rows share an email. */
  ghost predicate UniqueEmails(rows: map<int, UserRow>) {
    forall i, j :: i in rows && j in rows && rows[i].email == rows[j].email ==> i == j
  }

  /**
   * The checks `GetUser` makes before touching the database, in order: a nil
   * request, an empty id, then an id that is not an integer or not positive.
   */
  function ValidateGetUser(req: Option<GetUserRequest>): (r: Outcome)
    ensures r.Pass? <==> req.Some? && IsPositiveId(req.value.userId)
    ensures r.Fail? ==> r.status.code == InvalidArgument
    ensures req.None? ==> r == Fail(Status(InvalidArgument, "request cannot be nil"))
    ensures req.Some? && req.value.userId == "" ==>
              r == Fail(Status(InvalidArgument, "UserId cannot be empty"))
    ensures req.Some? && req.value.userId != "" && !IsPositiveId(req.value.userId) ==>
              r == Fail(Status(InvalidArgument, "Invalid UserId format"))
  {
    if req.None? then Fail(Status(InvalidArgument, "request cannot be nil"))
    else if req.value.userId == "" then Fail(Status(InvalidArgument, "UserId cannot be empty"))
    else
      var id := Atoi(req.value.userId);
      if id.None? || id.value <= 0 then Fail(Status(InvalidArgument, "Invalid UserId format"))
      else Pass
  }

  class UserStore {
    var rows: map<int, UserRow>
    var nextId: int

    /** Ids come from a counter that is never reused, and emails are unique. */
    ghost predicate Valid()
      reads this
    {
      1 <= nextId &&
      (forall id :: id in rows ==> 1 <= id < nextId) &&
      UniqueEmails(rows)
    }

    constructor ()
      ensures Valid()
      ensures rows == map[] && nextId == 1
    {
      rows, nextId := map[], 1;
    }

    /** Some row already holds this email. */
    predicate EmailTaken(email: string)
      reads this
    {
      exists id :: id in rows && rows[id].email == email
    }

    /**
     * `CreateUser`: inserts name and email under a fresh id and echoes the
     * stored row, checking nothing itself. A duplicate email violates the
     * unique column: `Internal`, no row added, though the id sequence has
     * advanced. Any other database failure is `Internal` and changes nothing.
     */
    method CreateUser(req: CreateUserRequest, dbOk: bool) returns (r: Result<User>)
      requires Valid()
      modifies this
      ensures Valid()
      ensures !dbOk ==> r == Err(Status(Internal, "internal server error")) && unchanged(this)
      ensures dbOk && old(EmailTaken(req.email)) ==>
                r == Err(Status(Internal, "internal server error")) &&
                rows == old(rows) && nextId == old(nextId) + 1
      ensures dbOk && !old(EmailTaken(req.email)) ==>
                old(nextId) !in old(rows) &&
                r == Ok(User(old(nextId), req.name, req.email)) &&
                rows == old(rows)[old(nextId) := UserRow(req.name, req.email)] &&
                nextId == old(nextId) + 1
    {
      if !dbOk {
        return Err(Status(Internal, "internal server error"));
      }
      var id := nextId;
      nextId := nextId + 1;
      if EmailTaken(req.email) {
        return Err(Status(Internal, "internal server error"));
      }
      rows := rows[id := UserRow(req.name, req.email)];
      r := Ok(User(id, req.name, req.email));
    }

    /**
     * `GetUser`: an invalid request is refused before any lookup; a valid id
     * yields its row with that id, `NotFound` when there is none, and
     * `Internal` when the database fails. A missing row is recognised by the
     * pool driver's own `ErrNoRows`, as intended (see `Pgx.MissingRowAsWritten`).
     */
    method GetUser(req: Option<GetUserRequest>, dbOk: bool) returns (r: Result<User>)
      requires Valid()
      ensures ValidateGetUser(req).Fail? ==> r == Err(ValidateGetUser(req).status)
      ensures ValidateGetUser(req).Pass? && !dbOk ==> r == Err(Status(Internal, "internal server error"))
      ensures ValidateGetUser(req).Pass? && dbOk ==>
                var id := Atoi(req.value.userId).value;
                (id !in rows ==> r == Err(Status(NotFound, "user not found"))) &&
                (id in rows ==> r == Ok(User(id, rows[id].name, rows[id].email)))
    {
      var v := ValidateGetUser(req);
      if v.Fail? {
        return Err(v.status);
      }
      var id := Atoi(req.value.userId).value;
      if !dbOk || id !in rows {
        var err := if dbOk then NoRows(PoolDriver) else QueryFailed;
        return Err(ScanStatus(err, PoolDriver, "user not found", "internal server error"));
      }
      r := Ok(User(id, rows[id].name, rows[id].email));
    }
  }
}
