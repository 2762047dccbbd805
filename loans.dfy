/**
 * The loan orchestrator: `BorrowBook` and `ReturnBook` as fixed sequences of
 * steps against the user service, the book service, the local `loans` table
 * and the message broker, each step able to fail with its own status.
 *
 * The server keeps the `loans` table (`ledger`, keyed by the generated id),
 * the sequence that generates those ids (`nextId`) and, as the book service's
 * `is_available` column seen through the book client, `availability`. What
 * each collaborator answers is a parameter (`BorrowEnv`, `ReturnEnv`), and
 * each operation also returns the calls it made, in order, so that the step
 * sequence and its early returns are part of the contract. Days are integer
 * day numbers; the formatted dates come with the `Clock` parameter.
 */
module LoanServer {
  import opened Wrappers
  import opened Grpc
  import opened StrConv
  import opened Rabbit
  import opened BookServer
  import opened UserServer
  import Notifications

  /** `AddDate(0, 0, 14)`: a loan is due fourteen days after it is made. */
  const LoanPeriod: int := 14

  datatype BorrowRequest = BorrowRequest(userId: string, bookId: string)
  datatype ReturnRequest = ReturnRequest(loanId: string)

  /** One row of the `loans` table: user_id, book_id, loan_date, return_date (the due day). */
  datatype Loan = Loan(userId: int, bookId: int, loanDay: int, dueDay: int)

  /** `LoanInfo`: the user and book ids of a loan, as text. */
  datatype LoanInfo = LoanInfo(userId: string, bookId: string)

  /**
   * One reading of the clock: the day number, `time.Now()` in RFC 3339, and
   * today and today plus fourteen days as YYYY-MM-DD.
   */
  datatype Clock = Clock(day: int, stamp: string, date: string, dueDate: string)

  /** `pb.LoanResponse`; a field the operation leaves unset is "". */
  datatype LoanResponse = LoanResponse(
    id: string,
    user: User,
    book: Book,
    borrowedDate: string,
    dueDate: string,
    returnedDate: string)

  /** `messagePublisher`: not set, or a channel whose publish returns the given error. */
  datatype Publisher = Unset | Channel(error: Option<string>)

  /** What the collaborators of one `BorrowBook` answer, step by step. */
  datatype BorrowEnv = BorrowEnv(
    initOk: bool,          // initServices
    user: Option<User>,    // userService.Get
    book: Option<Book>,    // bookService.Get
    insertOk: bool,        // INSERT INTO loans
    flipOk: bool,          // bookService.Update
    publisher: Publisher)

  /** What the collaborators of one `ReturnBook` answer, step by step. */
  datatype ReturnEnv = ReturnEnv(
    initOk: bool,          // initServices
    lookupOk: bool,        // the loans query reached the database and was read
    user: Option<User>,    // userService.Get
    book: Option<Book>,    // bookService.Get
    beginOk: bool,         // db.Begin
    deleteOk: bool,        // DELETE FROM loans
    flipOk: bool,          // bookService.Update
    commitOk: bool,        // tx.Commit
    publisher: Publisher)

  /** A call the orchestrator makes to a collaborator. */
  datatype Call =
    | InitServices
    | FetchUser(userId: string)
    | FetchBook(bookId: string)
    | InsertLoan(loan: Loan)
    | FlipBook(bookId: string)
    | LookupLoan(loanId: string)
    | BeginTx
    | DeleteLoan(loanId: string)
    | CommitTx
    | Publish(message: TaskMessage, result: PublishResult)

  /**
   * `validateBorrowRequest`, in order: a nil request, an empty user id, an
   * empty book id, a user id Atoi rejects, a book id Atoi rejects. Any id
   * Atoi reads is accepted, zero and negative ones included.
   */
  function ValidateBorrowRequest(req: Option<BorrowRequest>): (r: Outcome)
    ensures r.Pass? <==> req.Some? && Atoi(req.value.userId).Some? && Atoi(req.value.bookId).Some?
    ensures r.Fail? ==> r.status.code == InvalidArgument
    ensures req.None? ==> r.status.message == "request cannot be nil"
    ensures req.Some? && req.value.userId == "" ==> r.status.message == "user id cannot be empty"
    ensures req.Some? && req.value.userId != "" && req.value.bookId == "" ==>
              r.status.message == "book id cannot be empty"
    ensures req.Some? && req.value.userId != "" && req.value.bookId != "" &&
            Atoi(req.value.userId).None? ==>
              r.status.message == "invalid user id format"
    ensures req.Some? && req.value.userId != "" && req.value.bookId != "" &&
            Atoi(req.value.userId).Some? && Atoi(req.value.bookId).None? ==>
              r.status.message == "invalid book id format"
  {
    if req.None? then Fail(Status(InvalidArgument, "request cannot be nil"))
    else if req.value.userId == "" then Fail(Status(InvalidArgument, "user id cannot be empty"))
    else if req.value.bookId == "" then Fail(Status(InvalidArgument, "book id cannot be empty"))
    else if Atoi(req.value.userId).None? then Fail(Status(InvalidArgument, "invalid user id format"))
    else if Atoi(req.value.bookId).None? then Fail(Status(InvalidArgument, "invalid book id format"))
    else Pass
  }

  /** Any pair of 64-bit integers written in decimal passes borrow validation, whatever their sign. */
  lemma BorrowAcceptsAnyInteger(userId: int, bookId: int)
    requires InInt64(userId) && InInt64(bookId)
    ensures ValidateBorrowRequest(Some(BorrowRequest(Itoa(userId), Itoa(bookId)))).Pass?
  {
    AtoiItoa(userId);
    AtoiItoa(bookId);
  }

  /**
   * `validateReturnRequest`, in order: a nil request, an empty loan id, a
   * loan id Atoi rejects.
   */
  function ValidateReturnRequest(req: Option<ReturnRequest>): (r: Outcome)
    ensures r.Pass? <==> req.Some? && Atoi(req.value.loanId).Some?
    ensures r.Fail? ==> r.status.code == InvalidArgument
    ensures req.None? ==> r.status.message == "request cannot be nil"
    ensures req.Some? && req.value.loanId == "" ==> r.status.message == "loan id cannot be empty"
    ensures req.Some? && req.value.loanId != "" && Atoi(req.value.loanId).None? ==>
              r.status.message == "invalid loan id format"
  {
    if req.None? then Fail(Status(InvalidArgument, "request cannot be nil"))
    else if req.value.loanId == "" then Fail(Status(InvalidArgument, "loan id cannot be empty"))
    else if Atoi(req.value.loanId).None? then Fail(Status(InvalidArgument, "invalid loan id format"))
    else Pass
  }

  /** The row `createLoanRecord` inserts for a valid request: due fourteen days after today. */
  function NewLoan(rq: BorrowRequest, today: int): (loan: Loan)
    requires Atoi(rq.userId).Some? && Atoi(rq.bookId).Some?
    ensures loan.dueDay == loan.loanDay + LoanPeriod && loan.loanDay == today
    ensures Atoi(rq.userId) == Some(loan.userId) && Atoi(rq.bookId) == Some(loan.bookId)
  {
    Loan(Atoi(rq.userId).value, Atoi(rq.bookId).value, today, today + LoanPeriod)
  }

  /** The message `publishBorrowMessage` builds. */
  function BorrowMessage(user: User, book: Book, loanId: int, dueDate: string): TaskMessage {
    TaskMessage("Borrow", user.name, book.title, book.author, dueDate, Itoa(loanId), user.email)
  }

  /** The message `publishReturnMessage` builds; its due date is the day of return. */
  function ReturnMessage(user: User, book: Book, loanId: string, today: string): TaskMessage {
    TaskMessage("Return", user.name, book.title, book.author, today, loanId, user.email)
  }

  /**
   * A borrow message reaches the borrow queue, carries an id that parses back
   * to the new loan, and is rendered by the notification service as a borrow
   * email to the reader naming the book and the due date.
   */
  lemma BorrowMessageDelivered(user: User, book: Book, loanId: int, dueDate: string)
    requires InInt64(loanId)
    ensures var m := BorrowMessage(user, book, loanId, dueDate);
            RoutingKey(m.msgType) == Some(BorrowQueue) &&
            Atoi(m.loanId) == Some(loanId) &&
            m.email == user.email && m.userName == user.name &&
            Notifications.FormatEmailContent(m).subject == Notifications.BorrowSubject &&
            Notifications.Contains(Notifications.FormatEmailContent(m).body, book.title) &&
            Notifications.Contains(Notifications.FormatEmailContent(m).body, dueDate)
  {
    AtoiItoa(loanId);
  }

  /**
   * A return message reaches the return queue, carries the request's loan id
   * unchanged, and is rendered as a return email naming the book and author.
   */
  lemma ReturnMessageDelivered(user: User, book: Book, loanId: string, today: string)
    ensures var m := ReturnMessage(user, book, loanId, today);
            RoutingKey(m.msgType) == Some(ReturnQueue) &&
            m.loanId == loanId && m.email == user.email && m.userName == user.name &&
            Notifications.FormatEmailContent(m).subject == Notifications.ReturnSubject &&
            Notifications.Contains(Notifications.FormatEmailContent(m).body, book.title) &&
            Notifications.Contains(Notifications.FormatEmailContent(m).body, book.author)
  {
  }

  /** The publish step: nothing when no publisher is set, otherwise one `PublishTask`. */
  function PublishCalls(publisher: Publisher, message: TaskMessage): (calls: seq<Call>)
    ensures calls == [] <==> publisher.Unset?
    ensures |calls| <= 1
    ensures forall c :: c in calls ==> c == Publish(message, PublishTask(message, publisher.error))
  {
    match publisher
    case Unset => []
    case Channel(error) => [Publish(message, PublishTask(message, error))]
  }

  /** Every message the orchestrator builds is routed; publishing never fails for want of a queue. */
  lemma OrchestratorMessagesRoute(publisher: Publisher, user: User, book: Book, loanId: int, text: string)
    requires publisher.Channel? && publisher.error.None?
    ensures PublishCalls(publisher, BorrowMessage(user, book, loanId, text))[0].result.Published?
    ensures PublishCalls(publisher, ReturnMessage(user, book, text, text))[0].result.Published?
  {
  }

  /**
   * What the loans server keeps: the `loans` table, the sequence that numbers
   * its rows, and the books' availability flags as the book service holds them.
   */
  datatype Tables = Tables(ledger: map<int, Loan>, nextId: int, availability: map<int, bool>)

  /**
   * Loan ids come from a sequence that is never reused and stops at the
   * largest 64-bit integer; stored user and book ids are 64-bit integers.
   */
  ghost predicate ValidTables(t: Tables) {
    1 <= t.nextId <= MaxInt64 + 1 &&
    forall id :: id in t.ledger ==>
      1 <= id < t.nextId && InInt64(t.ledger[id].userId) && InInt64(t.ledger[id].bookId)
  }

  /** What one request produces: the reply, the calls made on the way, and the tables afterwards. */
  datatype Step = Step(result: Result<LoanResponse>, calls: seq<Call>, after: Tables)

  /**
   * `GetLoanInfo`: the user and book ids of the loan the text names, written
   * out in decimal; nothing when the text is not an integer or names no loan.
   */
  function GetLoanInfo(ledger: map<int, Loan>, loanId: string): (info: Option<LoanInfo>)
    ensures info.Some? <==> Atoi(loanId).Some? && Atoi(loanId).value in ledger
    ensures info.Some? ==>
              var loan := ledger[Atoi(loanId).value];
              (InInt64(loan.userId) ==> Atoi(info.value.userId) == Some(loan.userId)) &&
              (InInt64(loan.bookId) ==> Atoi(info.value.bookId) == Some(loan.bookId))
  {
    var key := Atoi(loanId);
    if key.Some? && key.value in ledger then
      var loan := ledger[key.value];
      assert InInt64(loan.userId) ==> Atoi(Itoa(loan.userId)) == Some(loan.userId) by {
        if InInt64(loan.userId) { AtoiItoa(loan.userId); }
      }
      assert InInt64(loan.bookId) ==> Atoi(Itoa(loan.bookId)) == Some(loan.bookId) by {
        if InInt64(loan.bookId) { AtoiItoa(loan.bookId); }
      }
      Some(LoanInfo(Itoa(loan.userId), Itoa(loan.bookId)))
    else None
  }

  /**
   * `BorrowBook`, step by step. The request is validated before anything is
   * contacted; then set-up, user fetch, book fetch, availability check, loan
   * insert, book flip and publish follow, each failure ending the request.
   */
  function Borrow(req: Option<BorrowRequest>, env: BorrowEnv, clock: Clock, t: Tables): Step {
    var v := ValidateBorrowRequest(req);
    if v.Fail? then Step(Err(v.status), [], t)
    else
      var rq := req.value;
      if !env.initOk then Step(Err(Status(Internal, "server error")), [InitServices], t)
      else if env.user.None? then
        Step(Err(Status(NotFound, "user not found")), [InitServices, FetchUser(rq.userId)], t)
      else if env.book.None? then
        Step(Err(Status(NotFound, "book not found")), [InitServices, FetchUser(rq.userId), FetchBook(rq.bookId)], t)
      else if !env.book.value.available then
        Step(Err(Status(InvalidArgument, "book is not available")),
             [InitServices, FetchUser(rq.userId), FetchBook(rq.bookId)], t)
      else Lend(rq, env, clock, t)
  }

  /**
   * The steps of `BorrowBook` once the user and an available book were
   * fetched: `createLoanRecord`, `updateBookAvailability`, `publishBorrowMessage`.
   */
  function Lend(rq: BorrowRequest, env: BorrowEnv, clock: Clock, t: Tables): Step
    requires Atoi(rq.userId).Some? && Atoi(rq.bookId).Some? && env.user.Some? && env.book.Some?
  {
    var loan := NewLoan(rq, clock.day);
    var inserting := [InitServices, FetchUser(rq.userId), FetchBook(rq.bookId), InsertLoan(loan)];
    if !env.insertOk || t.nextId > MaxInt64 then Step(Err(Status(Internal, "failed to create loan")), inserting, t)
    else
      var inserted := t.(ledger := t.ledger[t.nextId := loan], nextId := t.nextId + 1);
      var flipping := inserting + [FlipBook(rq.bookId)];
      if !env.flipOk then Step(Err(Status(Internal, "failed to update book status")), flipping, inserted)
      else
        var message := BorrowMessage(env.user.value, env.book.value, t.nextId, clock.dueDate);
        Step(Ok(LoanResponse(Itoa(t.nextId), env.user.value, env.book.value, clock.stamp, clock.dueDate, "")),
             flipping + PublishCalls(env.publisher, message),
             inserted.(availability := Flip(t.availability, loan.bookId)))
  }

  /**
   * `ReturnBook`, step by step. The request is validated before anything is
   * contacted; then set-up, loan lookup, user fetch and book fetch, and a
   * transaction that deletes the loan, flips the book and commits. A failure
   * inside the transaction rolls the delete back; a failed commit comes after
   * the remote flip, which stays. A lookup that fails, because no row holds
   * the id or because the query itself failed, is `NotFound`.
   */
  function Return(req: Option<ReturnRequest>, env: ReturnEnv, clock: Clock, t: Tables): Step {
    var v := ValidateReturnRequest(req);
    if v.Fail? then Step(Err(v.status), [], t)
    else if !env.initOk then Step(Err(Status(Internal, "server error")), [InitServices], t)
    else if !env.lookupOk then Step(Err(Status(NotFound, "loan not found")), [InitServices, LookupLoan(req.value.loanId)], t)
    else
      match GetLoanInfo(t.ledger, req.value.loanId)
      case None => Step(Err(Status(NotFound, "loan not found")), [InitServices, LookupLoan(req.value.loanId)], t)
      case Some(info) => ReturnLoan(req.value, info, env, clock, t)
  }

  /**
   * `returnBookTransaction`: begin, delete the loan row, have the book service
   * flip the book, commit. Until the commit the delete can be rolled back;
   * the remote flip cannot.
   */
  datatype TxOutcome = TxOutcome(committed: bool, calls: seq<Call>, after: Tables)

  function Transaction(rq: ReturnRequest, info: LoanInfo, id: int, env: ReturnEnv, t: Tables): TxOutcome
    requires id in t.ledger
  {
    if !env.beginOk then TxOutcome(false, [BeginTx], t)
    else if !env.deleteOk then TxOutcome(false, [BeginTx, DeleteLoan(rq.loanId)], t)
    else if !env.flipOk then TxOutcome(false, [BeginTx, DeleteLoan(rq.loanId), FlipBook(info.bookId)], t)
    else
      var flipped := t.(availability := Flip(t.availability, t.ledger[id].bookId));
      var calls := [BeginTx, DeleteLoan(rq.loanId), FlipBook(info.bookId), CommitTx];
      if !env.commitOk then TxOutcome(false, calls, flipped)
      else TxOutcome(true, calls, flipped.(ledger := t.ledger - {id}))
  }

  /** The steps of `ReturnBook` after the loan `rq` names was found, with ids `info`. */
  function ReturnLoan(rq: ReturnRequest, info: LoanInfo, env: ReturnEnv, clock: Clock, t: Tables): Step
    requires Atoi(rq.loanId).Some? && Atoi(rq.loanId).value in t.ledger
  {
    var fetched := [InitServices, LookupLoan(rq.loanId), FetchUser(info.userId)];
    if env.user.None? then Step(Err(Status(Internal, "failed to get user")), fetched, t)
    else if env.book.None? then Step(Err(Status(Internal, "failed to get book")), fetched + [FetchBook(info.bookId)], t)
    else
      var before := fetched + [FetchBook(info.bookId)];
      var tx := Transaction(rq, info, Atoi(rq.loanId).value, env, t);
      if !tx.committed then Step(Err(Status(Internal, "failed to return book")), before + tx.calls, tx.after)
      else
        var message := ReturnMessage(env.user.value, env.book.value, rq.loanId, clock.date);
        Step(Ok(LoanResponse(rq.loanId, env.user.value, env.book.value, "", "", clock.date)),
             before + tx.calls + PublishCalls(env.publisher, message),
             tx.after)
  }

  /** A borrow request that fails validation contacts nobody and changes nothing. */
  lemma BorrowValidatesFirst(req: Option<BorrowRequest>, env: BorrowEnv, clock: Clock, t: Tables)
    requires ValidateBorrowRequest(req).Fail?
    ensures var o := Borrow(req, env, clock, t);
            o.result == Err(ValidateBorrowRequest(req).status) && o.calls == [] && o.after == t
  {
  }

  /**
   * Up to the insert, a borrow fails with the status of the first step that
   * failed, has contacted nothing after that step, and changes nothing.
   */
  lemma BorrowEarlyFailures(rq: BorrowRequest, env: BorrowEnv, clock: Clock, t: Tables)
    requires ValidateBorrowRequest(Some(rq)).Pass?
    ensures var o := Borrow(Some(rq), env, clock, t);
            !env.initOk ==>
              o.result == Err(Status(Internal, "server error")) && o.calls == [InitServices] && o.after == t
    ensures var o := Borrow(Some(rq), env, clock, t);
            env.initOk && env.user.None? ==>
              o.result == Err(Status(NotFound, "user not found")) &&
              o.calls == [InitServices, FetchUser(rq.userId)] && o.after == t
    ensures var o := Borrow(Some(rq), env, clock, t);
            env.initOk && env.user.Some? && env.book.None? ==>
              o.result == Err(Status(NotFound, "book not found")) &&
              o.calls == [InitServices, FetchUser(rq.userId), FetchBook(rq.bookId)] && o.after == t
    ensures var o := Borrow(Some(rq), env, clock, t);
            env.initOk && env.user.Some? && env.book.Some? && !env.book.value.available ==>
              o.result == Err(Status(InvalidArgument, "book is not available")) &&
              o.calls == [InitServices, FetchUser(rq.userId), FetchBook(rq.bookId)] && o.after == t
    ensures var o := Borrow(Some(rq), env, clock, t);
            env.initOk && env.user.Some? && env.book.Some? && env.book.value.available &&
            (!env.insertOk || t.nextId > MaxInt64) ==>
              o.result == Err(Status(Internal, "failed to create loan")) &&
              o.calls[|o.calls| - 1] == InsertLoan(NewLoan(rq, clock.day)) && o.after == t
  {
  }

  /** A borrow succeeds exactly when every step does. */
  lemma BorrowSucceedsIff(req: Option<BorrowRequest>, env: BorrowEnv, clock: Clock, t: Tables)
    ensures Borrow(req, env, clock, t).result.Ok? <==>
              ValidateBorrowRequest(req).Pass? && env.initOk && env.user.Some? && env.book.Some? &&
              env.book.value.available && env.insertOk && t.nextId <= MaxInt64 && env.flipOk
  {
  }

  /**
   * A successful borrow answers the new loan's id in decimal, which parses
   * back to the row it inserted; that row is due fourteen days later, the
   * book is flipped, and the borrow message for that loan is published last. A failed borrow never flips a book, and the only failure that
   * changes anything is the flip failing after the insert, which leaves the
   * new row behind.
   */
  lemma BorrowEffects(req: Option<BorrowRequest>, env: BorrowEnv, clock: Clock, t: Tables)
    requires ValidTables(t)
    ensures var o := Borrow(req, env, clock, t);
            o.result.Ok? ==>
              var loan := NewLoan(req.value, clock.day);
              o.result.value.id == Itoa(t.nextId) && Atoi(o.result.value.id) == Some(t.nextId) &&
              o.result.value.user == env.user.value && o.result.value.book == env.book.value &&
              o.calls == [InitServices, FetchUser(req.value.userId), FetchBook(req.value.bookId), InsertLoan(loan),
                          FlipBook(req.value.bookId)] +
                         PublishCalls(env.publisher, BorrowMessage(env.user.value, env.book.value, t.nextId, clock.dueDate)) &&
              o.after.ledger == t.ledger[t.nextId := loan] && o.after.nextId == t.nextId + 1 &&
              loan.dueDay == clock.day + LoanPeriod &&
              o.after.availability == Flip(t.availability, loan.bookId)
    ensures var o := Borrow(req, env, clock, t);
            o.result.Err? ==> o.after.availability == t.availability
    ensures var o := Borrow(req, env, clock, t);
            o.result.Err? && o.after != t ==>
              o.result.status == Status(Internal, "failed to update book status") &&
              o.after.ledger == t.ledger[t.nextId := NewLoan(req.value, clock.day)]
  {
    var o := Borrow(req, env, clock, t);
    if o.result.Ok? {
      assert o == Lend(req.value, env, clock, t);
      LendSucceeds(req.value, env, clock, t);
      AtoiItoa(t.nextId);
    }
  }

  /** What a lend whose every step succeeds answers, calls and leaves behind. */
  lemma LendSucceeds(rq: BorrowRequest, env: BorrowEnv, clock: Clock, t: Tables)
    requires Atoi(rq.userId).Some? && Atoi(rq.bookId).Some? && env.user.Some? && env.book.Some?
    ensures var o := Lend(rq, env, clock, t);
            var loan := NewLoan(rq, clock.day);
            o.result.Ok? ==>
              o.result.value.id == Itoa(t.nextId) &&
              o.calls == [InitServices, FetchUser(rq.userId), FetchBook(rq.bookId), InsertLoan(loan), FlipBook(rq.bookId)] +
                         PublishCalls(env.publisher, BorrowMessage(env.user.value, env.book.value, t.nextId, clock.dueDate)) &&
              o.after == Tables(t.ledger[t.nextId := loan], t.nextId + 1, Flip(t.availability, loan.bookId))
  {
  }

  /** No loan row is written for a book the book service did not report available. */
  lemma BorrowInsertsOnlyAvailableBooks(req: Option<BorrowRequest>, env: BorrowEnv, clock: Clock, t: Tables, loan: Loan)
    requires InsertLoan(loan) in Borrow(req, env, clock, t).calls
    ensures env.book.Some? && env.book.value.available
    ensures loan == NewLoan(req.value, clock.day)
  {
    if ValidateBorrowRequest(req).Pass? && env.initOk && env.user.Some? && env.book.Some? && env.book.value.available {
      var rq := req.value;
      var o := Lend(rq, env, clock, t);
      assert Borrow(req, env, clock, t) == o;
      if o.result.Ok? {
        var published := PublishCalls(env.publisher, BorrowMessage(env.user.value, env.book.value, t.nextId, clock.dueDate));
        assert forall c :: c in published ==> c.Publish?;
        assert o.calls == [InitServices, FetchUser(rq.userId), FetchBook(rq.bookId), InsertLoan(NewLoan(rq, clock.day)),
                           FlipBook(rq.bookId)] + published;
      }
    }
  }

  /** A return request that fails validation contacts nobody and changes nothing. */
  lemma ReturnValidatesFirst(req: Option<ReturnRequest>, env: ReturnEnv, clock: Clock, t: Tables)
    requires ValidateReturnRequest(req).Fail?
    ensures var o := Return(req, env, clock, t);
            o.result == Err(ValidateReturnRequest(req).status) && o.calls == [] && o.after == t
  {
  }

  /**
   * Up to the transaction, a return fails with the status of the first step
   * that failed, has contacted nothing after that step, and changes nothing;
   * a failed lookup query, or a loan id the table does not hold, is `NotFound`.
   */
  lemma ReturnEarlyFailures(rq: ReturnRequest, env: ReturnEnv, clock: Clock, t: Tables)
    requires ValidateReturnRequest(Some(rq)).Pass?
    ensures var o := Return(Some(rq), env, clock, t);
            !env.initOk ==>
              o.result == Err(Status(Internal, "server error")) && o.calls == [InitServices] && o.after == t
    ensures var o := Return(Some(rq), env, clock, t);
            env.initOk && !env.lookupOk ==>
              o.result == Err(Status(NotFound, "loan not found")) &&
              o.calls == [InitServices, LookupLoan(rq.loanId)] && o.after == t
    ensures var o := Return(Some(rq), env, clock, t);
            env.initOk && Atoi(rq.loanId).value !in t.ledger ==>
              o.result == Err(Status(NotFound, "loan not found")) &&
              o.calls == [InitServices, LookupLoan(rq.loanId)] && o.after == t
    ensures var o := Return(Some(rq), env, clock, t);
            env.initOk && env.lookupOk && Atoi(rq.loanId).value in t.ledger && env.user.None? ==>
              o.result == Err(Status(Internal, "failed to get user")) && |o.calls| == 3 && o.after == t
    ensures var o := Return(Some(rq), env, clock, t);
            env.initOk && env.lookupOk && Atoi(rq.loanId).value in t.ledger && env.user.Some? && env.book.None? ==>
              o.result == Err(Status(Internal, "failed to get book")) && |o.calls| == 4 && o.after == t
    ensures var o := Return(Some(rq), env, clock, t);
            env.initOk && env.lookupOk && Atoi(rq.loanId).value in t.ledger && env.user.Some? && env.book.Some? &&
            !(env.beginOk && env.deleteOk && env.flipOk) ==>
              o.result == Err(Status(Internal, "failed to return book")) && o.after == t
  {
    if env.initOk && env.lookupOk && Atoi(rq.loanId).value in t.ledger {
      var info := GetLoanInfo(t.ledger, rq.loanId).value;
      assert Return(Some(rq), env, clock, t) == ReturnLoan(rq, info, env, clock, t);
    }
  }

  /** A return succeeds exactly when the loan exists and every step succeeds. */
  lemma ReturnSucceedsIff(req: Option<ReturnRequest>, env: ReturnEnv, clock: Clock, t: Tables)
    ensures Return(req, env, clock, t).result.Ok? <==>
              ValidateReturnRequest(req).Pass? && env.initOk && env.lookupOk && Atoi(req.value.loanId).value in t.ledger &&
              env.user.Some? && env.book.Some? && env.beginOk && env.deleteOk && env.flipOk && env.commitOk
  {
  }

  /**
   * A successful return answers the request's own id, removes exactly that
   * loan, flips exactly its book and then publishes the return message. A failed return never removes a loan,
   * and the only failure that changes anything is the failed commit, after
   * the book service has already flipped the book.
   */
  lemma ReturnEffects(req: Option<ReturnRequest>, env: ReturnEnv, clock: Clock, t: Tables)
    ensures var o := Return(req, env, clock, t);
            o.result.Ok? ==>
              var id := Atoi(req.value.loanId).value;
              var info := GetLoanInfo(t.ledger, req.value.loanId).value;
              o.result.value.id == req.value.loanId && o.result.value.returnedDate == clock.date &&
              o.calls == [InitServices, LookupLoan(req.value.loanId), FetchUser(info.userId), FetchBook(info.bookId),
                          BeginTx, DeleteLoan(req.value.loanId), FlipBook(info.bookId), CommitTx] +
                         PublishCalls(env.publisher, ReturnMessage(env.user.value, env.book.value, req.value.loanId, clock.date)) &&
              o.after.ledger == t.ledger - {id} && o.after.nextId == t.nextId &&
              o.after.availability == Flip(t.availability, t.ledger[id].bookId)
    ensures var o := Return(req, env, clock, t);
            o.result.Err? ==> o.after.ledger == t.ledger && o.after.nextId == t.nextId
    ensures var o := Return(req, env, clock, t);
            o.result.Err? && o.after != t ==>
              o.calls[|o.calls| - 1] == CommitTx &&
              o.after.availability == Flip(t.availability, t.ledger[Atoi(req.value.loanId).value].bookId)
  {
    var o := Return(req, env, clock, t);
    if ValidateReturnRequest(req).Pass? && env.initOk && env.lookupOk && GetLoanInfo(t.ledger, req.value.loanId).Some? {
      var info := GetLoanInfo(t.ledger, req.value.loanId).value;
      assert o == ReturnLoan(req.value, info, env, clock, t);
      ReturnLoanEffects(req.value, info, env, clock, t);
      ReturnLoanCalls(req.value, info, env, clock, t);
    }
  }

  /** The calls of a successful return after the lookup: the fetches, the transaction, then the return message. */
  lemma ReturnLoanCalls(rq: ReturnRequest, info: LoanInfo, env: ReturnEnv, clock: Clock, t: Tables)
    requires Atoi(rq.loanId).Some? && Atoi(rq.loanId).value in t.ledger
    ensures var o := ReturnLoan(rq, info, env, clock, t);
            o.result.Ok? ==>
              o.calls == [InitServices, LookupLoan(rq.loanId), FetchUser(info.userId), FetchBook(info.bookId),
                          BeginTx, DeleteLoan(rq.loanId), FlipBook(info.bookId), CommitTx] +
                         PublishCalls(env.publisher, ReturnMessage(env.user.value, env.book.value, rq.loanId, clock.date))
  {
  }

  /**
   * The partial-failure window of a return: when the commit fails after the
   * book service flipped the book, the delete is rolled back but the flip
   * stays, and the caller is told the return failed.
   */
  lemma ReturnCommitFails(rq: ReturnRequest, env: ReturnEnv, clock: Clock, t: Tables)
    requires ValidateReturnRequest(Some(rq)).Pass? && env.initOk && env.lookupOk && Atoi(rq.loanId).value in t.ledger
    requires env.user.Some? && env.book.Some?
    requires env.beginOk && env.deleteOk && env.flipOk && !env.commitOk
    ensures var o := Return(Some(rq), env, clock, t);
            o.result == Err(Status(Internal, "failed to return book")) &&
            o.after == t.(availability := Flip(t.availability, t.ledger[Atoi(rq.loanId).value].bookId))
  {
    var info := GetLoanInfo(t.ledger, rq.loanId).value;
    assert Return(Some(rq), env, clock, t) == ReturnLoan(rq, info, env, clock, t);
  }

  lemma ReturnLoanEffects(rq: ReturnRequest, info: LoanInfo, env: ReturnEnv, clock: Clock, t: Tables)
    requires Atoi(rq.loanId).Some? && Atoi(rq.loanId).value in t.ledger
    ensures var o := ReturnLoan(rq, info, env, clock, t);
            var id := Atoi(rq.loanId).value;
            (o.result.Ok? ==>
               o.result.value.id == rq.loanId && o.result.value.returnedDate == clock.date &&
               o.after.ledger == t.ledger - {id} && o.after.nextId == t.nextId &&
               o.after.availability == Flip(t.availability, t.ledger[id].bookId)) &&
            (o.result.Err? ==> o.after.ledger == t.ledger && o.after.nextId == t.nextId) &&
            (o.result.Err? && o.after != t ==>
               o.calls[|o.calls| - 1] == CommitTx &&
               o.after.availability == Flip(t.availability, t.ledger[id].bookId))
  {
  }

  /**
   * The book a return asks the book service to flip is, once the book
   * service parses the id, the book the loan holds.
   */
  lemma ReturnFlipsLoanedBook(req: Option<ReturnRequest>, env: ReturnEnv, clock: Clock, t: Tables, bookId: string)
    requires ValidTables(t)
    requires FlipBook(bookId) in Return(req, env, clock, t).calls
    ensures Atoi(req.value.loanId).Some? && Atoi(req.value.loanId).value in t.ledger
    ensures Atoi(bookId) == Some(t.ledger[Atoi(req.value.loanId).value].bookId)
  {
    var o := Return(req, env, clock, t);
    if ValidateReturnRequest(req).Pass? && env.initOk && env.lookupOk && GetLoanInfo(t.ledger, req.value.loanId).Some? {
      var info := GetLoanInfo(t.ledger, req.value.loanId).value;
      assert o == ReturnLoan(req.value, info, env, clock, t);
      ReturnLoanFlipsOnly(req.value, info, env, clock, t, bookId);
    }
  }

  /** After the lookup, a return fetches the loan's own user first. */
  lemma ReturnLoanFetchesUser(rq: ReturnRequest, info: LoanInfo, env: ReturnEnv, clock: Clock, t: Tables)
    requires Atoi(rq.loanId).Some? && Atoi(rq.loanId).value in t.ledger
    ensures var o := ReturnLoan(rq, info, env, clock, t);
            |o.calls| >= 3 && o.calls[..3] == [InitServices, LookupLoan(rq.loanId), FetchUser(info.userId)]
  {
  }

  /** After the lookup, a return asks the book service to flip the loan's book and no other. */
  lemma ReturnLoanFlipsOnly(rq: ReturnRequest, info: LoanInfo, env: ReturnEnv, clock: Clock, t: Tables, b: string)
    requires Atoi(rq.loanId).Some? && Atoi(rq.loanId).value in t.ledger
    requires FlipBook(b) in ReturnLoan(rq, info, env, clock, t).calls
    ensures b == info.bookId
  {
    var o := ReturnLoan(rq, info, env, clock, t);
    var before := [InitServices, LookupLoan(rq.loanId), FetchUser(info.userId), FetchBook(info.bookId)];
    assert FlipBook(b) !in before;
    if env.user.Some? && env.book.Some? {
      var tx := Transaction(rq, info, Atoi(rq.loanId).value, env, t);
      var published := PublishCalls(env.publisher, ReturnMessage(env.user.value, env.book.value, rq.loanId, clock.date));
      assert FlipBook(b) in tx.calls || FlipBook(b) in published;
    }
  }

  /**
   * With the lookup bound to the loans table and its query answered, a
   * validated return of a stored loan always reaches the user fetch with the
   * loan's own user id.
   */
  lemma ReturnReachesStoredLoan(rq: ReturnRequest, env: ReturnEnv, clock: Clock, t: Tables)
    requires ValidTables(t) && env.initOk && env.lookupOk
    requires Atoi(rq.loanId).Some? && Atoi(rq.loanId).value in t.ledger
    ensures var o := Return(Some(rq), env, clock, t);
            |o.calls| >= 3 && o.calls[1] == LookupLoan(rq.loanId) && o.calls[2].FetchUser? &&
            Atoi(o.calls[2].userId) == Some(t.ledger[Atoi(rq.loanId).value].userId)
  {
    var info := GetLoanInfo(t.ledger, rq.loanId).value;
    assert Return(Some(rq), env, clock, t) == ReturnLoan(rq, info, env, clock, t);
    ReturnLoanFetchesUser(rq, info, env, clock, t);
    var o := ReturnLoan(rq, info, env, clock, t);
    assert o.calls[2] == o.calls[..3][2];
  }

  /** Whether the broker is set up, or accepts the message, decides neither the reply nor the tables of a borrow. */
  lemma BorrowIgnoresPublisher(req: Option<BorrowRequest>, env: BorrowEnv, clock: Clock, t: Tables, p: Publisher)
    ensures Borrow(req, env.(publisher := p), clock, t).result == Borrow(req, env, clock, t).result
    ensures Borrow(req, env.(publisher := p), clock, t).after == Borrow(req, env, clock, t).after
  {
  }

  /** Whether the broker is set up, or accepts the message, decides neither the reply nor the tables of a return. */
  lemma ReturnIgnoresPublisher(req: Option<ReturnRequest>, env: ReturnEnv, clock: Clock, t: Tables, p: Publisher)
    ensures Return(req, env.(publisher := p), clock, t).result == Return(req, env, clock, t).result
    ensures Return(req, env.(publisher := p), clock, t).after == Return(req, env, clock, t).after
  {
    if ValidateReturnRequest(req).Pass? && env.initOk && env.lookupOk && GetLoanInfo(t.ledger, req.value.loanId).Some? {
      var info := GetLoanInfo(t.ledger, req.value.loanId).value;
      assert Return(req, env.(publisher := p), clock, t) == ReturnLoan(req.value, info, env.(publisher := p), clock, t);
      assert Return(req, env, clock, t) == ReturnLoan(req.value, info, env, clock, t);
      ReturnLoanIgnoresPublisher(req.value, info, env, clock, t, p);
    }
  }

  lemma ReturnLoanIgnoresPublisher(rq: ReturnRequest, info: LoanInfo, env: ReturnEnv, clock: Clock, t: Tables, p: Publisher)
    requires Atoi(rq.loanId).Some? && Atoi(rq.loanId).value in t.ledger
    ensures ReturnLoan(rq, info, env.(publisher := p), clock, t).result == ReturnLoan(rq, info, env, clock, t).result
    ensures ReturnLoan(rq, info, env.(publisher := p), clock, t).after == ReturnLoan(rq, info, env, clock, t).after
  {
    var id := Atoi(rq.loanId).value;
    assert Transaction(rq, info, id, env.(publisher := p), t) == Transaction(rq, info, id, env, t);
  }

  /** A borrow keeps the id sequence and the stored ids within their ranges. */
  lemma BorrowKeepsValid(req: Option<BorrowRequest>, env: BorrowEnv, clock: Clock, t: Tables)
    requires ValidTables(t)
    ensures ValidTables(Borrow(req, env, clock, t).after)
  {
  }

  /** A return keeps the id sequence and the stored ids within their ranges. */
  lemma ReturnKeepsValid(req: Option<ReturnRequest>, env: ReturnEnv, clock: Clock, t: Tables)
    requires ValidTables(t)
    ensures ValidTables(Return(req, env, clock, t).after)
  {
    var o := Return(req, env, clock, t);
    if ValidateReturnRequest(req).Pass? && env.initOk && env.lookupOk && GetLoanInfo(t.ledger, req.value.loanId).Some? {
      var info := GetLoanInfo(t.ledger, req.value.loanId).value;
      ReturnLoanEffects(req.value, info, env, clock, t);
    }
  }

  /** Some active loan holds book `b`. */
  ghost predicate OnLoan(ledger: map<int, Loan>, b: int) {
    exists id :: id in ledger && ledger[id].bookId == b
  }

  /**
   * The lending invariant: at most one active loan per book, and a book the
   * availability map knows is unavailable exactly when a loan holds it.
   */
  ghost predicate Coherent(t: Tables) {
    (forall i, j :: i in t.ledger && j in t.ledger && t.ledger[i].bookId == t.ledger[j].bookId ==> i == j) &&
    (forall b :: b in t.availability ==> (t.availability[b] <==> !OnLoan(t.ledger, b)))
  }

  /** The book the book service answered agrees with the availability map about its own flag. */
  ghost predicate Mirrors(book: Book, bookId: int, availability: map<int, bool>) {
    bookId in availability && availability[bookId] == book.available
  }

  /** Lending an available book under a fresh id, and flipping it, keeps the lending invariant. */
  lemma LendKeepsCoherent(t: Tables, id: int, loan: Loan)
    requires Coherent(t)
    requires id !in t.ledger && loan.bookId in t.availability && t.availability[loan.bookId]
    ensures Coherent(Tables(t.ledger[id := loan], t.nextId, Flip(t.availability, loan.bookId)))
  {
    var ledger', availability' := t.ledger[id := loan], Flip(t.availability, loan.bookId);
    assert !OnLoan(t.ledger, loan.bookId);
    forall b | b in availability'
      ensures availability'[b] <==> !OnLoan(ledger', b)
    {
      if b == loan.bookId {
        assert ledger'[id].bookId == b;
      } else {
        if OnLoan(ledger', b) {
          var k :| k in ledger' && ledger'[k].bookId == b;
          assert k in t.ledger && t.ledger[k].bookId == b;
        }
        if OnLoan(t.ledger, b) {
          var k :| k in t.ledger && t.ledger[k].bookId == b;
          assert k in ledger' && ledger'[k].bookId == b;
        }
      }
    }
  }

  /** Removing a loan, and flipping its book, keeps the lending invariant. */
  lemma ReleaseKeepsCoherent(t: Tables, id: int)
    requires Coherent(t) && id in t.ledger
    ensures Coherent(Tables(t.ledger - {id}, t.nextId, Flip(t.availability, t.ledger[id].bookId)))
  {
    var b0 := t.ledger[id].bookId;
    var ledger', availability' := t.ledger - {id}, Flip(t.availability, b0);
    assert !OnLoan(ledger', b0);
    forall b | b in availability'
      ensures availability'[b] <==> !OnLoan(ledger', b)
    {
      if b == b0 {
        assert OnLoan(t.ledger, b0);
      } else if OnLoan(t.ledger, b) {
        var k :| k in t.ledger && t.ledger[k].bookId == b;
        assert k in ledger' && ledger'[k].bookId == b;
      }
    }
  }

  /**
   * A successful borrow of the book the service reported keeps the lending
   * invariant; a borrow whose flip fails breaks it, leaving a book on loan
   * that is still marked available.
   */
  lemma BorrowCoherence(req: Option<BorrowRequest>, env: BorrowEnv, clock: Clock, t: Tables)
    requires ValidTables(t) && Coherent(t)
    requires env.book.Some? && ValidateBorrowRequest(req).Pass?
    requires Mirrors(env.book.value, NewLoan(req.value, clock.day).bookId, t.availability)
    ensures var o := Borrow(req, env, clock, t);
            o.result.Ok? ==> Coherent(o.after)
    ensures var o := Borrow(req, env, clock, t);
            o.result == Err(Status(Internal, "failed to update book status")) ==> !Coherent(o.after)
  {
    var o := Borrow(req, env, clock, t);
    var loan := NewLoan(req.value, clock.day);
    if o.result.Ok? {
      LendKeepsCoherent(t, t.nextId, loan);
      assert o.after == Tables(t.ledger[t.nextId := loan], t.nextId + 1, Flip(t.availability, loan.bookId));
    } else if o.result == Err(Status(Internal, "failed to update book status")) {
      assert o.after.ledger[t.nextId].bookId == loan.bookId;
    }
  }

  /**
   * A successful return keeps the lending invariant; a return whose commit
   * fails breaks it, leaving a book on loan that is marked available.
   */
  lemma ReturnCoherence(req: Option<ReturnRequest>, env: ReturnEnv, clock: Clock, t: Tables)
    requires Coherent(t)
    ensures var o := Return(req, env, clock, t);
            o.result.Ok? ==> Coherent(o.after)
    ensures var o := Return(req, env, clock, t);
            o.result.Err? && o.after != t ==> !Coherent(o.after)
    ensures var o := Return(req, env, clock, t);
            ValidateReturnRequest(req).Pass? && env.initOk && env.lookupOk && Atoi(req.value.loanId).value in t.ledger &&
            env.user.Some? && env.book.Some? && env.beginOk && env.deleteOk && env.flipOk && !env.commitOk &&
            t.ledger[Atoi(req.value.loanId).value].bookId in t.availability ==>
              o.result.Err? && !Coherent(o.after)
  {
    var o := Return(req, env, clock, t);
    if ValidateReturnRequest(req).Pass? && env.initOk && env.lookupOk && Atoi(req.value.loanId).value in t.ledger &&
       env.user.Some? && env.book.Some? && env.beginOk && env.deleteOk && env.flipOk && !env.commitOk {
      ReturnCommitFails(req.value, env, clock, t);
    }
    if o.after != t {
      var id := Atoi(req.value.loanId).value;
      if o.result.Ok? {
        ReleaseKeepsCoherent(t, id);
        assert o.after == Tables(t.ledger - {id}, t.nextId, Flip(t.availability, t.ledger[id].bookId));
      } else {
        var b := t.ledger[id].bookId;
        assert OnLoan(t.ledger, b);
        assert OnLoan(o.after.ledger, b);
      }
    }
  }

  /**
   * The round trip: a borrow whose every step succeeds, followed by a return
   * of the id it answered whose every step succeeds, leaves every loan and
   * every book's availability as they were; only the id sequence has moved.
   */
  lemma BorrowThenReturn(rq: BorrowRequest, benv: BorrowEnv, renv: ReturnEnv, c1: Clock, c2: Clock, t: Tables)
    requires ValidTables(t)
    requires Borrow(Some(rq), benv, c1, t).result.Ok?
    requires renv.initOk && renv.lookupOk && renv.user.Some? && renv.book.Some?
    requires renv.beginOk && renv.deleteOk && renv.flipOk && renv.commitOk
    ensures var b := Borrow(Some(rq), benv, c1, t);
            var r := Return(Some(ReturnRequest(b.result.value.id)), renv, c2, b.after);
            r.result.Ok? && r.result.value.id == b.result.value.id &&
            r.after == t.(nextId := t.nextId + 1)
  {
    var b := Borrow(Some(rq), benv, c1, t);
    BorrowEffects(Some(rq), benv, c1, t);
    assert b.result.value.id == Itoa(t.nextId);
    ReturnFreshLoan(t, b.after, t.nextId, NewLoan(rq, c1.day), renv, c2);
  }

  /** Returning the loan just added, when every step succeeds, undoes the addition and the flip. */
  lemma ReturnFreshLoan(t: Tables, u: Tables, id: int, loan: Loan, env: ReturnEnv, clock: Clock)
    requires InInt64(id) && id !in t.ledger
    requires u.ledger == t.ledger[id := loan] && u.availability == Flip(t.availability, loan.bookId)
    requires env.initOk && env.lookupOk && env.user.Some? && env.book.Some?
    requires env.beginOk && env.deleteOk && env.flipOk && env.commitOk
    ensures var r := Return(Some(ReturnRequest(Itoa(id))), env, clock, u);
            r.result.Ok? && r.result.value.id == Itoa(id) &&
            r.after == Tables(t.ledger, u.nextId, t.availability)
  {
    var back := Some(ReturnRequest(Itoa(id)));
    AtoiItoa(id);
    ReturnSucceedsIff(back, env, clock, u);
    ReturnEffects(back, env, clock, u);
    assert u.ledger - {id} == t.ledger;
    FlipTwice(t.availability, loan.bookId);
  }

  /** What the server's `getLoanInfo` field holds: nothing, or the server's own `GetLoanInfo`. */
  datatype LookupHook = NilHook | TableLookup

  /** Calling the hook: the loan's ids, no such loan, or a call through a nil function value, which panics. */
  datatype Lookup = Found(info: LoanInfo) | NoLoan | NilFunctionCall

  function CallLookup(hook: LookupHook, ledger: map<int, Loan>, loanId: string): (l: Lookup)
    ensures l.NilFunctionCall? <==> hook.NilHook?
    ensures l.Found? <==> hook.TableLookup? && GetLoanInfo(ledger, loanId).Some?
    ensures l.Found? ==> GetLoanInfo(ledger, loanId) == Some(l.info)
  {
    match hook
    case NilHook => NilFunctionCall
    case TableLookup =>
      match GetLoanInfo(ledger, loanId)
      case None => NoLoan
      case Some(info) => Found(info)
  }

  /** The hook `NewLoansServer`, the constructor the service's entry point uses, leaves in place. */
  function NewLoansServerHook(): LookupHook {
    NilHook
  }

  /**
   * As written, a production server panics on the lookup step of every
   * return that passes validation and set-up, even for a loan the table holds.
   */
  lemma ProductionReturnPanics(ledger: map<int, Loan>, rq: ReturnRequest)
    requires ValidateReturnRequest(Some(rq)).Pass? && Atoi(rq.loanId).value in ledger
    ensures GetLoanInfo(ledger, rq.loanId).Some?
    ensures CallLookup(NewLoansServerHook(), ledger, rq.loanId).NilFunctionCall?
  {
  }

  /** Bound to the loans table, the hook finds exactly the stored loans and never panics. */
  lemma TableLookupFindsStoredLoans(ledger: map<int, Loan>, loanId: string)
    ensures !CallLookup(TableLookup, ledger, loanId).NilFunctionCall?
    ensures CallLookup(TableLookup, ledger, loanId).Found? <==>
              Atoi(loanId).Some? && Atoi(loanId).value in ledger
  {
  }

  /**
   * The loans service. Its methods make the calls `Borrow` and `Return`
   * describe, in that order, and leave the tables as they say.
   */
  class LoansServer {
    var ledger: map<int, Loan>
    var nextId: int
    var availability: map<int, bool>

    function State(): Tables
      reads this
    {
      Tables(ledger, nextId, availability)
    }

    ghost predicate Valid()
      reads this
    {
      ValidTables(State())
    }

    /** A server over an empty `loans` table whose sequence starts at 1. */
    constructor (availability: map<int, bool>)
      ensures Valid()
      ensures ledger == map[] && nextId == 1 && this.availability == availability
    {
      this.ledger, this.nextId, this.availability := map[], 1, availability;
    }

    /** `BorrowBook`. */
    method BorrowBook(req: Option<BorrowRequest>, env: BorrowEnv, clock: Clock)
      returns (r: Result<LoanResponse>, calls: seq<Call>)
      requires Valid()
      modifies this
      ensures Valid()
      ensures Step(r, calls, State()) == Borrow(req, env, clock, old(State()))
    {
      var v := ValidateBorrowRequest(req);
      if v.Fail? {
        return Err(v.status), [];
      }
      var rq := req.value;
      calls := [InitServices];
      if !env.initOk {
        return Err(Status(Internal, "server error")), calls;
      }
      calls := calls + [FetchUser(rq.userId)];
      if env.user.None? {
        return Err(Status(NotFound, "user not found")), calls;
      }
      calls := calls + [FetchBook(rq.bookId)];
      if env.book.None? {
        return Err(Status(NotFound, "book not found")), calls;
      }
      if !env.book.value.available {
        return Err(Status(InvalidArgument, "book is not available")), calls;
      }
      r, calls := LendBook(rq, env, clock);
    }

    /** The insert, flip and publish steps of `BorrowBook`. */
    method LendBook(rq: BorrowRequest, env: BorrowEnv, clock: Clock)
      returns (r: Result<LoanResponse>, calls: seq<Call>)
      requires Valid()
      requires Atoi(rq.userId).Some? && Atoi(rq.bookId).Some? && env.user.Some? && env.book.Some?
      modifies this
      ensures Valid()
      ensures Step(r, calls, State()) == Lend(rq, env, clock, old(State()))
    {
      var loan := NewLoan(rq, clock.day);
      // createLoanRecord
      calls := [InitServices, FetchUser(rq.userId), FetchBook(rq.bookId), InsertLoan(loan)];
      if !env.insertOk || nextId > MaxInt64 {
        return Err(Status(Internal, "failed to create loan")), calls;
      }
      var loanId := nextId;
      ledger, nextId := ledger[loanId := loan], nextId + 1;
      // updateBookAvailability
      calls := calls + [FlipBook(rq.bookId)];
      if !env.flipOk {
        return Err(Status(Internal, "failed to update book status")), calls;
      }
      availability := Flip(availability, loan.bookId);
      // publishBorrowMessage; its failure is only logged
      calls := calls + PublishCalls(env.publisher, BorrowMessage(env.user.value, env.book.value, loanId, clock.dueDate));
      r := Ok(LoanResponse(Itoa(loanId), env.user.value, env.book.value, clock.stamp, clock.dueDate, ""));
    }

    /** `ReturnBook`. */
    method ReturnBook(req: Option<ReturnRequest>, env: ReturnEnv, clock: Clock)
      returns (r: Result<LoanResponse>, calls: seq<Call>)
      requires Valid()
      modifies this
      ensures Valid()
      ensures Step(r, calls, State()) == Return(req, env, clock, old(State()))
    {
      var v := ValidateReturnRequest(req);
      if v.Fail? {
        return Err(v.status), [];
      }
      var rq := req.value;
      if !env.initOk {
        return Err(Status(Internal, "server error")), [InitServices];
      }
      var info := GetLoanInfo(ledger, rq.loanId);
      if !env.lookupOk || info.None? {
        return Err(Status(NotFound, "loan not found")), [InitServices, LookupLoan(rq.loanId)];
      }
      r, calls := FinishReturn(rq, info.value, env, clock);
    }

    /** The steps of `ReturnBook` after the loan was found. */
    method FinishReturn(rq: ReturnRequest, info: LoanInfo, env: ReturnEnv, clock: Clock)
      returns (r: Result<LoanResponse>, calls: seq<Call>)
      requires Valid()
      requires Atoi(rq.loanId).Some? && Atoi(rq.loanId).value in ledger
      modifies this
      ensures Valid()
      ensures Step(r, calls, State()) == ReturnLoan(rq, info, env, clock, old(State()))
    {
      calls := [InitServices, LookupLoan(rq.loanId), FetchUser(info.userId)];
      if env.user.None? {
        return Err(Status(Internal, "failed to get user")), calls;
      }
      calls := calls + [FetchBook(info.bookId)];
      if env.book.None? {
        return Err(Status(Internal, "failed to get book")), calls;
      }
      var committed, txCalls := ReturnBookTransaction(rq, info, Atoi(rq.loanId).value, env);
      calls := calls + txCalls;
      if !committed {
        return Err(Status(Internal, "failed to return book")), calls;
      }
      // publishReturnMessage; its failure is only logged
      calls := calls + PublishCalls(env.publisher, ReturnMessage(env.user.value, env.book.value, rq.loanId, clock.date));
      r := Ok(LoanResponse(rq.loanId, env.user.value, env.book.value, "", "", clock.date));
    }

    /** `returnBookTransaction`. */
    method ReturnBookTransaction(rq: ReturnRequest, info: LoanInfo, id: int, env: ReturnEnv)
      returns (committed: bool, calls: seq<Call>)
      requires Valid() && id in ledger
      modifies this
      ensures Valid()
      ensures TxOutcome(committed, calls, State()) == Transaction(rq, info, id, env, old(State()))
    {
      calls := [BeginTx];
      if !env.beginOk {
        return false, calls;
      }
      calls := calls + [DeleteLoan(rq.loanId)];
      if !env.deleteOk {
        return false, calls;
      }
      calls := calls + [FlipBook(info.bookId)];
      if !env.flipOk {
        // the deferred rollback undoes the delete
        return false, calls;
      }
      availability := Flip(availability, ledger[id].bookId);
      calls := calls + [CommitTx];
      if !env.commitOk {
        return false, calls;
      }
      ledger := ledger - {id};
      committed := true;
    }
  }
}
