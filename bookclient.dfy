/**
 * The book service's client: input checks made locally, then a forward of
 * the call. The remote answer is a parameter, passed back unchanged; a call
 * refused locally never reaches the server.
 */
module BookClient {
  import opened Grpc
  import opened StrConv
  import opened BookServer

  const MaxTitleBytes: nat := 255
  const MaxAuthorBytes: nat := 100

  /**
   * The checks of `Create`, in order: empty title, title over 255 bytes,
   * empty author, author over 100 bytes, year negative or more than ten
   * years past the current one. Lengths are UTF-8 byte counts.
   */
  function ValidateCreate(title: string, author: string, year: int, currentYear: int): (r: Outcome)
    ensures r.Pass? <==>
              title != "" && ByteLength(title) <= MaxTitleBytes &&
              author != "" && ByteLength(author) <= MaxAuthorBytes &&
              0 <= year <= currentYear + 10
    ensures r.Fail? ==> r.status.code == InvalidArgument
    ensures title == "" ==> r.status.message == "title cannot be empty"
    ensures title != "" && ByteLength(title) > MaxTitleBytes ==> r.status.message == "title too long"
    ensures title != "" && ByteLength(title) <= MaxTitleBytes && author == "" ==>
              r.status.message == "author cannot be empty"
    ensures title != "" && ByteLength(title) <= MaxTitleBytes &&
            author != "" && ByteLength(author) > MaxAuthorBytes ==>
              r.status.message == "author name too long"
    ensures title != "" && ByteLength(title) <= MaxTitleBytes &&
            author != "" && ByteLength(author) <= MaxAuthorBytes &&
            (year < 0 || year > currentYear + 10) ==>
              r.status.message == "invalid year"
  {
    if title == "" then Fail(Status(InvalidArgument, "title cannot be empty"))
    else if ByteLength(title) > MaxTitleBytes then Fail(Status(InvalidArgument, "title too long"))
    else if author == "" then Fail(Status(InvalidArgument, "author cannot be empty"))
    else if ByteLength(author) > MaxAuthorBytes then Fail(Status(InvalidArgument, "author name too long"))
    else if year < 0 || year > currentYear + 10 then Fail(Status(InvalidArgument, "invalid year"))
    else Pass
  }

  /** `Create`: the checks, then the remote `CreateBook` whose answer is returned as is. */
  function Create(title: string, author: string, year: int, currentYear: int, remote: Result<Book>): (r: Reply<Book>)
    ensures r.contacted <==> ValidateCreate(title, author, year, currentYear).Pass?
    ensures !r.contacted ==> r.result == Err(ValidateCreate(title, author, year, currentYear).status)
    ensures r.contacted ==> r.result == remote
  {
    match ValidateCreate(title, author, year, currentYear)
    case Fail(status) => Reply(Err(status), false)
    case Pass => Reply(remote, true)
  }

  /** The limits are inclusive: 255 and 100 bytes, year 0 and ten years ahead all pass. */
  lemma CreateBoundariesAccepted(title: string, author: string, currentYear: int)
    requires currentYear >= 0
    requires ByteLength(title) == MaxTitleBytes && ByteLength(author) == MaxAuthorBytes
    ensures ValidateCreate(title, author, 0, currentYear).Pass?
    ensures ValidateCreate(title, author, currentYear + 10, currentYear).Pass?
    ensures ValidateCreate(title, author, currentYear + 11, currentYear).Fail?
  {
  }

  /**
   * `validateBookID`: accepts exactly the ids Atoi reads as a positive
   * integer. The empty id has its own message.
   */
  function ValidateBookId(id: string): (r: Outcome)
    ensures r.Pass? <==> IsPositiveId(id)
    ensures id == "" ==> r == Fail(Status(InvalidArgument, "BookId cannot be empty"))
    ensures id != "" && !IsPositiveId(id) ==>
              r == Fail(Status(InvalidArgument, "BookId must be a positive integer"))
  {
    if id == "" then Fail(Status(InvalidArgument, "BookId cannot be empty"))
    else
      var n := Atoi(id);
      if n.None? || n.value <= 0 then Fail(Status(InvalidArgument, "BookId must be a positive integer"))
      else Pass
  }

  /** `Get`: an invalid id is refused locally; a valid one is forwarded to `GetBook`. */
  function Get(id: string, remote: Result<Book>): (r: Reply<Book>)
    ensures r.contacted <==> IsPositiveId(id)
    ensures !r.contacted ==> r.result == Err(ValidateBookId(id).status)
    ensures r.contacted ==> r.result == remote
  {
    match ValidateBookId(id)
    case Fail(status) => Reply(Err(status), false)
    case Pass => Reply(remote, true)
  }

  /** `Update`: an invalid id is refused locally; a valid one is forwarded to `UpdateBookStatus`. */
  function Update(id: string, remote: Result<Book>): (r: Reply<Book>)
    ensures r.contacted <==> IsPositiveId(id)
    ensures !r.contacted ==> r.result == Err(ValidateBookId(id).status)
    ensures r.contacted ==> r.result == remote
  {
    match ValidateBookId(id)
    case Fail(status) => Reply(Err(status), false)
    case Pass => Reply(remote, true)
  }
}
