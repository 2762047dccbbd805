# Library system: loans, books, users, broker and notifications

This project models the core of a small library system made of gRPC
services. The core is:

- **The loans service.** It orchestrates the borrowing and return of a book:
  - it validates the request;
  - it fetches the user and the book from their services;
  - it writes or deletes a row in its own `loans` table;
  - it asks the book service to flip the book's availability;
  - it publishes a task message to the broker.
- **The book service.** It creates and fetches books and flips a book's `is_available` flag. Its client checks titles, authors, years and ids before it forwards a call.
- **The user service.** It creates and fetches users and keeps emails unique. Its client checks names, emails and ids.
- **The broker client.** It routes a "Borrow" message to `borrow_queue` and a "Return" message to `return_queue` on the `library` exchange.
- **The notification service.** It consumes task messages, renders each into an email, and acks or nacks the delivery by the outcome.

The services hold state that their operations update in place. That state is modelled as classes:

- `BookServer.BookStore` holds the books table.
- `UserServer.UserStore` holds the users table.
- `LoanServer.LoansServer` holds the loans table, the sequence that numbers it, and the books' availability flags as the book service holds them.

What a collaborator answers is a parameter of the operation. This covers the database, a remote service, the broker channel, the SMTP sender, the JSON decoder and the clock.

The loan orchestrator is specified by pure functions of these answers and the old tables:

- `LoanServer.Borrow` and `LoanServer.Return` give three things: the reply, the ordered list of collaborator calls made, and the tables afterwards.
- The class methods `BorrowBook` and `ReturnBook` are proved to do exactly what those functions say.
- The lemmas beside them state the properties of the steps:
  - each error path;
  - nothing changes before the first write;
  - the partial-failure windows;
  - the lending invariant;
  - the borrow/return round trip.

Go's `strconv.Atoi` and `strconv.Itoa` are modelled in `StrConv`, with the round trip `Atoi(Itoa(n)) == Some(n)` proved. So is Go's `len` on strings, as a UTF-8 byte count.

Modules:

| file | module | models |
|---|---|---|
| wrappers.dfy | Wrappers | `Option` |
| grpc.dfy | Grpc | status codes, `Result`, `Outcome`, client `Reply` |
| strconv.dfy | StrConv | `strconv.Atoi`, `strconv.Itoa`, UTF-8 byte length |
| rabbit.dfy | Rabbit | `TaskMessage`, `PublishTask` |
| books.dfy | BookServer | the book service |
| bookclient.dfy | BookClient | the book client |
| users.dfy | UserServer | the user service |
| userclient.dfy | UserClient | the user client |
| pgx.dfy | Pgx | how a failed row scan becomes a status |
| notifications.dfy | Notifications | `SendNotification`, `processMessage`, `formatEmailContent` |
| loans.dfy | LoanServer | the loans service |

## Model

| member | source | states |
|---|---|---|
| StrConv.Atoi | loans/server/server.go:191-196 | Atoi succeeds exactly on an optional sign followed by one or more ASCII digits whose value fits in 64 bits, and yields that value |
| StrConv.ScanDigitsValue | loans/server/server.go:191 | the digit loop yields `acc * 10^len + value` exactly when every byte is a digit, and fails otherwise |
| StrConv.DecimalValueFront | loans/server/server.go:191 | reading a numeral's leading digit first gives the same value as reading its last digit last |
| StrConv.NatDigitsValue | loans/server/server.go:124 | the decimal digits of a natural number are non-empty, all digits, and denote the number |
| StrConv.NatDigitsLeading | loans/server/server.go:124 | the digits of a natural number start with `0` only for zero |
| StrConv.Itoa | loans/server/server.go:124 | the decimal form of an integer has integer syntax and denotes the integer; it starts with `-` exactly for a negative integer, never has `+`, and has no leading zero except in "0" |
| StrConv.AtoiItoa | loans/server/server.go:289 | parsing the decimal form of a 64-bit integer gives the integer back |
| StrConv.ItoaInjective | loans/server/server.go:124 | distinct loan ids have distinct decimal forms |
| StrConv.ByteLength | books/client/client.go:41 | a string's byte length lies between its character count and four times that, and equals the count exactly for ASCII text |
| Rabbit.RoutingKey | rabbit/RabbitClient.go:53-84 | "Borrow" maps to `borrow_queue` and "Return" to `return_queue`, each if and only if, by exact match; every other type has no queue |
| Rabbit.PublishTask | rabbit/RabbitClient.go:43-91 | an unknown type fails with "invalid queue" before the channel is used; a channel error is returned as is; otherwise the message goes unchanged to exchange `library` under its type's routing key |
| Rabbit.RoutingKeysDistinct | rabbit/RabbitClient.go:53-84 | the two accepted types never share a queue |
| BookServer.Flip | books/server/server.go:80 | flipping negates the one book's flag, keeps every other book's flag and adds no book |
| BookServer.FlipTwice | books/server/server.go:80 | flipping the same book twice restores every flag |
| BookServer.FlipCommutes | books/server/server.go:80 | flips of two books can be applied in either order |
| BookServer.ValidateGetBook | books/server/server.go:50-63 | `GetBook` checks, in order: a nil request, an empty id, then an id that is not a positive integer, each `InvalidArgument`; it passes exactly the positive ids |
| BookServer.BookStore.constructor | books/server/server.go:23-26 | a new service starts with no books and its id sequence at 1 |
| BookServer.BookStore.CreateBook | books/server/server.go:28-43 | a new book is stored under a fresh id with available = true and its fields echoed; a failed insert is `Internal "server error"` and stores nothing |
| Pgx.ScanStatus | books/server/server.go:68-73 | a scan error is `NotFound` exactly when it is the very `ErrNoRows` value compared against, and `Internal` otherwise, each with the server's message |
| Pgx.MissingRowAsWritten | books/server/server.go:69 | as written, a missing row reported by the v5 pool never matches the imported sentinel, so it is `Internal` |
| Pgx.MissingRowIntended | users/server/server.go:74 | compared against the pool's own sentinel, a missing row is `NotFound` and any other failure is `Internal` |
| BookServer.BookStore.GetBook | books/server/server.go:45-76 | an invalid request fails before any lookup; a valid id gives its row, `NotFound "book not found"` without a row (recognised by the pool's own sentinel), and `Internal "server error"` when the database fails; nothing changes |
| BookServer.BookStore.UpdateBookStatus | books/server/server.go:78-86 | flips exactly the given id with no validation and answers an empty book; an id with no row changes nothing; a database failure is `Internal` and changes nothing |
| BookClient.ValidateCreate | books/client/client.go:38-52 | passes exactly a non-empty title of at most 255 bytes, a non-empty author of at most 100 bytes and a year in [0, current+10]; the first failing check decides the message |
| BookClient.CreateBoundariesAccepted | books/client/client.go:41-50 | the limits are inclusive: 255 bytes, 100 bytes, year 0 and current+10 pass, and current+11 fails |
| BookClient.Create | books/client/client.go:37-75 | the server is contacted exactly when the checks pass; its answer is returned unchanged, and otherwise the check's error is returned |
| BookClient.ValidateBookId | books/client/client.go:133-143 | passes exactly the ids Atoi reads as a positive integer; "" gets "BookId cannot be empty" and anything else invalid gets "BookId must be a positive integer" |
| BookClient.Get | books/client/client.go:77-101 | contacts the server exactly for a positive integer id, and passes its answer back unchanged |
| BookClient.Update | books/client/client.go:103-126 | contacts the server exactly for a positive integer id, and passes its answer back unchanged |
| UserServer.ValidateGetUser | users/server/server.go:55-68 | `GetUser` checks, in order: a nil request, an empty id, then an id that is not a positive integer, each `InvalidArgument`; it passes exactly the positive ids |
| UserServer.UserStore.constructor | users/server/server.go:27-30 | a new service starts with no users and its id sequence at 1 |
| UserServer.UserStore.CreateUser | users/server/server.go:32-46 | a new email is stored under a fresh id and echoed; an email already present fails with `Internal`, adds no row and still consumes an id; emails stay unique |
| UserServer.UserStore.GetUser | users/server/server.go:48-81 | an invalid request fails before any lookup; a stored id gives its row with that id, `NotFound "user not found"` without a row (recognised by the pool's own sentinel), and `Internal` when the database fails |
| UserClient.ValidateCreateUserRequest | users/client/client.go:68-76 | the name is checked before the email; it passes exactly a non-empty name with a non-empty email that the address parser, applied to that email, accepts |
| UserClient.Create | users/client/client.go:36-48 | the server is contacted exactly when the checks pass, and its answer is returned unchanged |
| UserClient.Get | users/client/client.go:50-62 | only the empty id is refused locally; any other id is forwarded unchanged |
| Notifications.ContainsPrefix | notifications/server/server.go:145-155 | helper for `FormatEmailContent`: a text contains its own prefix |
| Notifications.ContainsPrepend | notifications/server/server.go:145-155 | helper for `FormatEmailContent`: putting text in front keeps every occurrence |
| Notifications.ContainsPrepend2 | notifications/server/server.go:145-155 | helper for `FormatEmailContent`: putting two pieces of text in front keeps every occurrence |
| Notifications.TemplateMentionsFour | notifications/server/server.go:145-155 | helper for `FormatEmailContent`, used for the borrow template: fixed text around four fields contains each field |
| Notifications.TemplateMentionsThree | notifications/server/server.go:159-169 | helper for `FormatEmailContent`, used for the return template: fixed text around three fields contains each field |
| Notifications.FormatEmailContent | notifications/server/server.go:141-176 | "Borrow" gives the borrow subject and a body naming the reader, title, author and due date; "Return" gives the return subject and a body naming the reader, title and author; any other type gives the generic subject and body |
| Notifications.ProcessMessage | notifications/server/server.go:126-139 | a malformed body is an unmarshal error and sends nothing; an empty email is "email is empty" and sends nothing; otherwise exactly one email goes to the event's address, and the sender's result is the outcome |
| Notifications.UnmarshalErrorPrefix | notifications/server/server.go:129 | every unmarshal error starts with "failed to unmarshal message: " |
| Notifications.Settle | notifications/server/server.go:111-121 | a delivery is acked when processing returned no error and nacked with requeue otherwise; `SendNotification` is proved to settle every delivery by it |
| Notifications.SentEmails | notifications/server/server.go:111-121 | a run hands the sender at most one email per delivery, each to a non-empty address |
| Notifications.SentEmailsExtend | notifications/server/server.go:111-121 | one more delivery adds its email, if any, at the end |
| Notifications.SendNotification | notifications/server/server.go:97-124 | a set-up failure, or a request naming a queue the broker lacks, is `Internal "Server Error"` and settles nothing; otherwise each delivery of the queue the request names is acked exactly when it was processed without error and nacked with requeue otherwise, the emails go out in delivery order, and the reply is a success |
| LoanServer.ValidateBorrowRequest | loans/server/server.go:180-199 | the checks run in order: nil request, empty user id, empty book id, unparsable user id, unparsable book id, each `InvalidArgument`; it passes exactly when both ids parse |
| LoanServer.BorrowAcceptsAnyInteger | loans/server/server.go:191-196 | any pair of 64-bit integers passes borrow validation, zero and negative ids included |
| LoanServer.ValidateReturnRequest | loans/server/server.go:201-212 | the checks run in order: nil request, empty loan id, unparsable loan id, each `InvalidArgument`; it passes exactly when the id parses |
| LoanServer.NewLoan | loans/server/server.go:214-219 | the inserted row holds the parsed user and book ids, today, and a due day fourteen days later |
| LoanServer.BorrowMessageDelivered | loans/server/server.go:278-294 | a borrow message routes to `borrow_queue`, its loan id parses back to the loan, and the notification service renders it as a borrow email to the reader naming the book and due date |
| LoanServer.ReturnMessageDelivered | loans/server/server.go:296-312 | a return message routes to `return_queue`, carries the request's loan id, and is rendered as a return email naming the book and author |
| LoanServer.BorrowMessage | loans/server/server.go:283-291 | the borrow task built from the user, the book, the new loan id and the due date; `BorrowMessageDelivered` states where it goes and what it becomes |
| LoanServer.ReturnMessage | loans/server/server.go:301-309 | the return task built from the user, the book, the request's loan id and today's date; `ReturnMessageDelivered` states where it goes and what it becomes |
| LoanServer.PublishCalls | loans/server/server.go:279-293 | with no publisher nothing is published; otherwise this message is published exactly once, with the channel's outcome |
| LoanServer.OrchestratorMessagesRoute | loans/server/server.go:283-309 | with a working channel, both messages the orchestrator builds are published |
| LoanServer.GetLoanInfo | loans/server/server.go:244-256 | a loan is found exactly when the id parses and names a stored loan; the ids it gives back parse to the loan's user and book |
| LoanServer.Borrow | loans/server/server.go:77-130 | the reply, call list and tables of `BorrowBook`, step by step; its properties are `BorrowValidatesFirst`, `BorrowEarlyFailures`, `BorrowSucceedsIff`, `BorrowEffects`, `BorrowCoherence` and `BorrowThenReturn` |
| LoanServer.Lend | loans/server/server.go:106-129 | insert, flip and publish once the fetches passed; stated by `LendSucceeds` and `BorrowEffects` |
| LoanServer.Return | loans/server/server.go:132-178 | the reply, call list and tables of `ReturnBook`, step by step; its properties are `ReturnValidatesFirst`, `ReturnEarlyFailures`, `ReturnSucceedsIff`, `ReturnEffects`, `ReturnCommitFails` and `ReturnCoherence` |
| LoanServer.ReturnLoan | loans/server/server.go:151-177 | the steps after the lookup; stated by `ReturnLoanEffects`, `ReturnLoanCalls`, `ReturnLoanFetchesUser` and `ReturnLoanFlipsOnly` |
| LoanServer.Transaction | loans/server/server.go:258-276 | begin, delete, flip, commit: the delete counts only once committed, and the flip stays after a failed commit; stated by `ReturnCommitFails` and `ReturnLoanEffects` |
| LoanServer.BorrowValidatesFirst | loans/server/server.go:80-82 | a borrow request that fails validation gets that error, contacts nobody and changes nothing |
| LoanServer.BorrowEarlyFailures | loans/server/server.go:83-110 | up to the insert, the first failing step decides the status, nothing after it is contacted, and the tables are unchanged |
| LoanServer.BorrowSucceedsIff | loans/server/server.go:77-130 | a borrow succeeds exactly when validation, set-up, both fetches, the availability check, the insert and the flip all succeed |
| LoanServer.BorrowEffects | loans/server/server.go:106-129 | a success answers `Itoa` of the new id, which parses back to it; it makes exactly the calls set-up, user fetch, book fetch, insert, flip, then the publication of the borrow message for that loan; adds exactly the new row due in fourteen days, and flips that book; a failure never flips; the only failure that changes anything is the flip failing after the insert, which leaves the row |
| LoanServer.BorrowInsertsOnlyAvailableBooks | loans/server/server.go:102-110 | no loan row is written unless the book service reported the book available |
| LoanServer.ReturnValidatesFirst | loans/server/server.go:135-137 | a return request that fails validation gets that error, contacts nobody and changes nothing |
| LoanServer.ReturnEarlyFailures | loans/server/server.go:138-164 | a failed lookup query and an unknown loan are both `NotFound "loan not found"` after the lookup call; user or book fetch failures are `Internal`; a failure before the commit step changes nothing |
| LoanServer.ReturnSucceedsIff | loans/server/server.go:132-178 | a return succeeds exactly when validation, set-up and the lookup query succeed, the loan exists, and every later step succeeds |
| LoanServer.LendSucceeds | loans/server/server.go:106-129 | once the fetches passed, a lend that succeeds answers `Itoa` of the new id, makes the insert and flip calls then publishes the borrow message, and leaves exactly the new row, the advanced sequence and the flipped book |
| LoanServer.ReturnEffects | loans/server/server.go:161-177 | a success answers the request's id; it makes exactly the calls set-up, lookup, both fetches, begin, delete, flip, commit, then the publication of the return message; it removes exactly that loan and flips exactly its book; a failure never removes a loan; only a failed commit changes anything, by the flip already made |
| LoanServer.ReturnLoanCalls | loans/server/server.go:151-177 | after the lookup, a successful return calls the two fetches, begin, delete, flip and commit in that order, then publishes the return message for the request's id |
| LoanServer.ReturnCommitFails | loans/server/server.go:270-275 | when only the commit fails, the return answers `Internal "failed to return book"`, the loan stays, and the book stays flipped |
| LoanServer.ReturnLoanEffects | loans/server/server.go:258-276 | the same, for the steps after the loan was found |
| LoanServer.ReturnFlipsLoanedBook | loans/server/server.go:270 | the id a return asks the book service to flip parses to the loaned book's id |
| LoanServer.ReturnLoanFetchesUser | loans/server/server.go:145-151 | after the lookup, the user fetch comes next, with the id text from the lookup |
| LoanServer.ReturnLoanFlipsOnly | loans/server/server.go:258-276 | the only flip a return asks for is for the book of the loan it found |
| LoanServer.ReturnReachesStoredLoan | loans/server/server.go:145-151 | a validated return of a stored loan whose lookup query is answered always reaches the user fetch, for that loan's own user |
| LoanServer.BorrowIgnoresPublisher | loans/server/server.go:117-119 | a missing publisher or a failed publish changes neither the borrow's reply nor the tables |
| LoanServer.ReturnIgnoresPublisher | loans/server/server.go:166-168 | a missing publisher or a failed publish changes neither the return's reply nor the tables |
| LoanServer.ReturnLoanIgnoresPublisher | loans/server/server.go:166-168 | the same, for the steps after the loan was found |
| LoanServer.BorrowKeepsValid | loans/server/server.go:214-232 | a borrow keeps loan ids fresh, below the sequence, and within 64 bits |
| LoanServer.ReturnKeepsValid | loans/server/server.go:258-276 | a return keeps loan ids fresh, below the sequence, and within 64 bits |
| LoanServer.LendKeepsCoherent | loans/server/server.go:106-115 | lending an available book under a fresh id and flipping it keeps at most one loan per book, with unavailable meaning on loan |
| LoanServer.ReleaseKeepsCoherent | loans/server/server.go:258-276 | removing a loan and flipping its book keeps the lending invariant |
| LoanServer.BorrowCoherence | loans/server/server.go:106-115 | a successful borrow keeps the lending invariant; a borrow whose flip fails breaks it |
| LoanServer.ReturnCoherence | loans/server/server.go:161-164 | a successful return keeps the lending invariant; a return whose commit fails after the flip, for a book the availability map holds, fails and breaks it; so does any failed return that changed something |
| LoanServer.BorrowThenReturn | loans/server/server.go:106-177 | a borrow whose steps all succeed, then a return of the answered id whose steps all succeed, restore every loan and every flag; only the sequence moves |
| LoanServer.ReturnFreshLoan | loans/server/server.go:258-276 | returning the loan just added, with every step succeeding, undoes the addition and the flip |
| LoanServer.CallLookup | loans/server/server.go:49 | the `getLoanInfo` hook panics exactly when it is nil; bound to the table, it finds exactly the stored loans |
| LoanServer.ProductionReturnPanics | loans/server/server.go:52-57 | as written, every validated return on the production server calls a nil function, even when the loan is stored |
| LoanServer.TableLookupFindsStoredLoans | loans/server/server.go:244-256 | bound to the loans table, the lookup never panics and finds exactly the stored loans |
| LoanServer.LoansServer.constructor | loans/server/server.go:52-57 | a new server starts with no loans and its sequence at 1, over the given availability |
| LoanServer.LoansServer.BorrowBook | loans/server/server.go:77-130 | the reply, the calls made and the new tables are those `Borrow` gives for the old tables; the id invariant is kept |
| LoanServer.LoansServer.LendBook | loans/server/server.go:106-129 | the insert, flip and publish steps do what `Lend` gives |
| LoanServer.LoansServer.ReturnBook | loans/server/server.go:132-178 | the reply, the calls made and the new tables are those `Return` gives for the old tables; the id invariant is kept |
| LoanServer.LoansServer.FinishReturn | loans/server/server.go:151-177 | the steps after the lookup do what `ReturnLoan` gives |
| LoanServer.LoansServer.ReturnBookTransaction | loans/server/server.go:258-276 | begin, delete, flip and commit do what `Transaction` gives: the delete counts only once committed, and the flip stays even when the commit fails |

## Left out

- Logging, timeouts and contexts are left out. So are the `.env` loading and the dialing inside `initServices`, which appear only as the `initOk` flag.
- `sendNotificationAsync` and the `NotificationService` client are left out. They run in a goroutine after the reply, and their outcome is only logged.
- Concurrency is left out. Two borrows of the same book can interleave between the availability check and the flip, and the model runs one request at a time.
- JSON encoding and decoding, SMTP, and AMQP channel set-up and consumption are parameters. A delivery carries its decoded body and the sender's answer.
- `SendNotification`: its consumer channel is modelled as a finite sequence. The Go loop runs until the broker closes the channel.
- Dates and times are parameters: the `Clock` gives today's day number and the formatted date strings.
- `UserClient.ValidateCreateUserRequest`: whether `net/mail.ParseAddress` accepts an email is the function parameter `parses`, applied to the email. The address grammar is not modelled.
- Postgres's reading of an id string as an integer is approximated by Atoi. This applies to the `$1` placeholders of `UpdateBookStatus` and of the loans queries.
- `BookServer.BookStore.UpdateBookStatus`: the database's column limits are folded into the `dbOk` flag (VARCHAR lengths in `CreateBook` and `CreateUser`, the integer width in `UpdateBookStatus`).
- The loans table's schema is not part of this model. The id sequence is bounded by Go's 64-bit `int`, into which the id is scanned.
- A nil request to `CreateBook`, `CreateUser` or `UpdateBookStatus` dereferences nil in Go. The model's requests are never nil there.
- Client constructors and `Close`, `Shutdown`, `ValidateConfig` and the `main` packages are left out.

## Findings

| source | as written | input that shows it | evidently intended | confidence | as-written member | corrected member |
|---|---|---|---|---|---|---|
| loans/server/server.go:52-57 | `NewLoansServer`, which the service's entry point uses, never sets the `getLoanInfo` field, so `ReturnBook` calls a nil function at line 145 | any return request with a valid loan id, for example "1", once set-up succeeds: the handler panics instead of answering | `getLoanInfo` bound to the server's own `GetLoanInfo` (lines 244-256), so a stored loan is found and an unknown one is `NotFound` | high, not executed | LoanServer.ProductionReturnPanics | LoanServer.TableLookupFindsStoredLoans |
| books/server/server.go:69 | `GetBook` compares the scan error against `ErrNoRows` of `github.com/jackc/pgx`, while the pool it scans through is from `github.com/jackc/pgx/v5`, whose `ErrNoRows` is another value | `GetBook` with id "999" when no book 999 exists: the answer is `Internal "server error"` | `NotFound "book not found"` | medium, not executed; it depends on the two modules resolving to distinct packages | Pgx.MissingRowAsWritten | Pgx.MissingRowIntended |
| users/server/server.go:74 | `GetUser` makes the same comparison against the unversioned module's `ErrNoRows` | `GetUser` with id "999" when no user 999 exists: the answer is `Internal "internal server error"` | `NotFound "user not found"` | medium, not executed; it depends on the two modules resolving to distinct packages | Pgx.MissingRowAsWritten | Pgx.MissingRowIntended |
