/**
 * The user service's client: input checks made locally, then a forward of
 * the call. Whether `net/mail.ParseAddress` accepts the email (RFC 5322
 * section 3.4 address syntax) is the parameter `parses`; the remote
 * answer is a parameter, passed back unchanged.
 */
module UserClient {
  import opened Grpc
  import opened UserServer

  /**
   * `validateCreateUserRequest`: the name is checked first, then the email,
   * which must be non-empty and accepted by the address parser `parses`.
   */
  function ValidateCreateUserRequest(name: string, email: string, parses: string -> bool): (r: Outcome)
    ensures r.Pass? <==> name != "" && email != "" && parses(email)
    ensures name == "" ==> r == Fail(Status(InvalidArgument, "name cannot be empty"))
    ensures name != "" && (email == "" || !parses(email)) ==>
              r == Fail(Status(InvalidArgument, "invalid email"))
  {
    if name == "" then Fail(Status(InvalidArgument, "name cannot be empty"))
    else if email == "" || !parses(email) then Fail(Status(InvalidArgument, "invalid email"))
    else Pass
  }

  /** `Create`: the checks, then the remote `CreateUser` whose answer is returned as is. */
  function Create(name: string, email: string, parses: string -> bool, remote: Result<User>): (r: Reply<User>)
    ensures r.contacted <==> ValidateCreateUserRequest(name, email, parses).Pass?
    ensures !r.contacted ==> r.result == Err(ValidateCreateUserRequest(name, email, parses).status)
    ensures r.contacted ==> r.result == remote
  {
    match ValidateCreateUserRequest(name, email, parses)
    case Fail(status) => Reply(Err(status), false)
    case Pass => Reply(remote, true)
  }

  /**
   * `Get`: only the empty id is refused locally; any other id, numeric or
   * not, is forwarded unchanged to `GetUser`.
   */
  function Get(id: string, remote: Result<User>): (r: Reply<User>)
    ensures r.contacted <==> id != ""
    ensures !r.contacted ==> r.result == Err(Status(InvalidArgument, "UserId cannot be empty"))
    ensures r.contacted ==> r.result == remote
  {
    if id == "" then Reply(Err(Status(InvalidArgument, "UserId cannot be empty")), false)
    else Reply(remote, true)
  }
}
