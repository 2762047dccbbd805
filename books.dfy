/**
 * The book service: a `books` table with columns title, author,
 * published_year and is_available, keyed by a generated id. The table lives
 * in a `BookStore` whose `rows` hold the descriptive columns and whose
 * `available` map holds `is_available`. A database failure other than a
 * missing row is a `dbOk == false` parameter.
 */
module BookServer {
  import opened Wrappers
  import opened Grpc
  import opened StrConv
  import opened Pgx

  /** `pb.BookResponse`. */
  datatype Book = Book(id: int, title: string, author: string, year: int, available: bool)

  /** `&pb.BookResponse{}`: every field at its zero value. */
  const EmptyBook: Book := Book(0, "", "", 0, false)

  datatype CreateBookRequest = CreateBookRequest(title: string, author: string, year: int)
  datatype GetBookRequest = GetBookRequest(bookId: string)
  datatype UpdateBookRequest = UpdateBookRequest(bookId: string)

  /** The descriptive columns of one row. */
  datatype BookRow = BookRow(title: string, author: string, year: int)

  /**
   * `UPDATE books SET is_available = NOT is_available WHERE id = $1`: the
   * flag of `id` is negated, every other book keeps its own, and an id with
   * no row changes nothing.
   */
  function Flip(available: map<int, bool>, id: int): (r: map<int, bool>)
    ensures r.Keys == available.Keys
    ensures id in available ==> r[id] == !available[id]
    ensures forall k :: k in available && k != id ==> r[k] == available[k]
  {
    if id in available then available[id := !available[id]] else available
  }

  /** Flipping the same book twice restores every flag. */
  lemma FlipTwice(available: map<int, bool>, id: int)
    ensures Flip(Flip(available, id), id) == available
  {
  }

  /** Flips of two books do not interfere: their order does not matter. */
  lemma FlipCommutes(available: map<int, bool>, i: int, j: int)
    ensures Flip(Flip(available, i), j) == Flip(Flip(available, j), i)
  {
  }

  /**
   * The checks `GetBook` makes before touching the database, in order: a nil
   * request, an empty id, then an id that is not an integer or not positive.
   */
  function ValidateGetBook(req: Option<GetBookRequest>): (r: Outcome)
    ensures r.Pass? <==> req.Some? && IsPositiveId(req.value.bookId)
    ensures r.Fail? ==> r.status.code == InvalidArgument
    ensures req.None? ==> r == Fail(Status(InvalidArgument, "request cannot be nil"))
    ensures req.Some? && req.value.bookId == "" ==>
              r == Fail(Status(InvalidArgument, "BookId cannot be empty"))
    ensures req.Some? && req.value.bookId != "" && !IsPositiveId(req.value.bookId) ==>
              r == Fail(Status(InvalidArgument, "Invalid BookId format"))
  {
    if req.None? then Fail(Status(InvalidArgument, "request cannot be nil"))
    else if req.value.bookId == "" then Fail(Status(InvalidArgument, "BookId cannot be empty"))
    else
      var id := Atoi(req.value.bookId);
      if id.None? || id.value <= 0 then Fail(Status(InvalidArgument, "Invalid BookId format"))
      else Pass
  }

  class BookStore {
    var rows: map<int, BookRow>
    var available: map<int, bool>
    var nextId: int

    /** Every row has both parts, and ids come from a counter that is never reused. */
    ghost predicate Valid()
      reads this
    {
      rows.Keys == available.Keys &&
      1 <= nextId &&
      forall id :: id in rows ==> 1 <= id < nextId
    }

    constructor ()
      ensures Valid()
      ensures rows == map[] && available == map[] && nextId == 1
    {
      rows, available, nextId := map[], map[], 1;
    }

    /**
     * `CreateBook`: inserts the title, author and year under a fresh id with
     * `is_available = true` and echoes the stored row. It checks nothing
     * itself; a failed insert is `Internal "server error"` and stores nothing.
     */
    method CreateBook(req: CreateBookRequest, dbOk: bool) returns (r: Result<Book>)
      requires Valid()
      modifies this
      ensures Valid()
      ensures !dbOk ==> r == Err(Status(Internal, "server error")) && unchanged(this)
      ensures dbOk ==>
                old(nextId) !in old(rows) &&
                r == Ok(Book(old(nextId), req.title, req.author, req.year, true)) &&
                rows == old(rows)[old(nextId) := BookRow(req.title, req.author, req.year)] &&
                available == old(available)[old(nextId) := true] &&
                nextId == old(nextId) + 1
    {
      if !dbOk {
        return Err(Status(Internal, "server error"));
      }
      var id := nextId;
      rows := rows[id := BookRow(req.title, req.author, req.year)];
      available := available[id := true];
      nextId := nextId + 1;
      r := Ok(Book(id, req.title, req.author, req.year, true));
    }

    /**
     * `GetBook`: an invalid request is refused before any lookup; a valid id
     * yields its row, `NotFound` when there is none, and `Internal` when the
     * database fails. A missing row is recognised by the pool driver's own
     * `ErrNoRows`, as intended (see `Pgx.MissingRowAsWritten`).
     */
    method GetBook(req: Option<GetBookRequest>, dbOk: bool) returns (r: Result<Book>)
      requires Valid()
      ensures ValidateGetBook(req).Fail? ==> r == Err(ValidateGetBook(req).status)
      ensures ValidateGetBook(req).Pass? && !dbOk ==> r == Err(Status(Internal, "server error"))
      ensures ValidateGetBook(req).Pass? && dbOk ==>
                var id := Atoi(req.value.bookId).value;
                (id !in rows ==> r == Err(Status(NotFound, "book not found"))) &&
                (id in rows ==> r.Ok? && r.value.id == id &&
                                r.value.title == rows[id].title && r.value.author == rows[id].author &&
                                r.value.year == rows[id].year && r.value.available == available[id])
    {
      var v := ValidateGetBook(req);
      if v.Fail? {
        return Err(v.status);
      }
      var id := Atoi(req.value.bookId).value;
      if !dbOk || id !in rows {
        var err := if dbOk then NoRows(PoolDriver) else QueryFailed;
        return Err(ScanStatus(err, PoolDriver, "book not found", "server error"));
      }
      var row := rows[id];
      r := Ok(Book(id, row.title, row.author, row.year, available[id]));
    }

    /**
     * `UpdateBookStatus`: flips the flag of the given id without validating
     * it and answers with an empty response. The database parses the id; a
     * string it cannot read as an integer, or any database failure, is
     * `Internal "server error"` and changes nothing. An id with no row
     * succeeds and changes nothing.
     */
    method UpdateBookStatus(req: UpdateBookRequest, dbOk: bool) returns (r: Result<Book>)
      requires Valid()
      modifies this
      ensures Valid()
      ensures !dbOk || Atoi(req.bookId).None? ==>
                r == Err(Status(Internal, "server error")) && unchanged(this)
      ensures dbOk && Atoi(req.bookId).Some? ==>
                r == Ok(EmptyBook) &&
                available == Flip(old(available), Atoi(req.bookId).value) &&
                rows == old(rows) && nextId == old(nextId)
    {
      var id := Atoi(req.bookId);
      if !dbOk || id.None? {
        return Err(Status(Internal, "server error"));
      }
      available := Flip(available, id.value);
      r := Ok(EmptyBook);
    }
  }
}
