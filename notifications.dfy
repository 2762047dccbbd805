/**
 * The notification service: it consumes task messages from a queue, turns
 * each into an email and acknowledges the delivery when the email went out.
 * JSON decoding, the SMTP sender and the queue consumer are parameters: a
 * delivery carries its decoded body (or the decoder's complaint) and the
 * error, if any, the sender reports for the email it triggers.
 */
module Notifications {
  import opened Wrappers
  import opened Grpc
  import opened Rabbit

  /** The result of `json.Unmarshal` on a delivery body. */
  datatype Decoded = Decoded(event: TaskMessage) | Malformed(reason: string)

  /** One delivery from the queue, with the sender's answer to the email it causes. */
  datatype Delivery = Delivery(body: Decoded, sendError: Option<string>)

  datatype Email = Email(to: string, subject: string, body: string)

  /** Subject and HTML body of a notification. */
  datatype EmailContent = EmailContent(subject: string, body: string)

  /** What `processMessage` did: the email it handed to the sender, and its error. */
  datatype Processed = Processed(sent: Option<Email>, error: Option<string>)

  /** How a delivery is settled: `Ack(false)` or `Nack(false, requeue)`. */
  datatype Settlement = Ack | Nack(requeue: bool)

  datatype NotificationRequest = NotificationRequest(notificationType: string)
  datatype NotificationResponse = NotificationResponse(success: bool)

  const BorrowSubject: string := "Book Borrowed Notification"
  const ReturnSubject: string := "Book Return Confirmation"
  const UnknownSubject: string := "Library Notification"
  const UnknownBody: string := "<p>Unknown notification type</p>"
  const UnmarshalPrefix: string := "failed to unmarshal message: "
  const EmptyEmail: string := "email is empty"

  /** `part` occurs in `text` starting at index `i`. */
  predicate OccursAt(text: string, part: string, i: int) {
    0 <= i <= |text| - |part| && text[i..i + |part|] == part
  }

  /** `part` occurs somewhere in `text`. */
  predicate Contains(text: string, part: string) {
    exists i | 0 <= i <= |text| - |part| :: OccursAt(text, part, i)
  }

  lemma ContainsPrefix(part: string, after: string)
    ensures Contains(part + after, part)
  {
    assert OccursAt(part + after, part, 0);
  }

  lemma ContainsPrepend(before: string, text: string, part: string)
    requires Contains(text, part)
    ensures Contains(before + text, part)
  {
    var i :| 0 <= i <= |text| - |part| && OccursAt(text, part, i);
    assert (before + text)[|before| + i..|before| + i + |part|] == text[i..i + |part|];
    assert OccursAt(before + text, part, |before| + i);
  }

  /** The fixed text of the borrow template around its four fields. */
  const BorrowHead: string := "\n\t\t\t<html>\n\t\t\t<body>\n\t\t\t<h2>Book Borrowed Successfully!</h2>\n\t\t\t<p>Dear "
  const BorrowAfterName: string := ",</p>\n\t\t\t<p>You have successfully borrowed the book <strong>\""
  const BorrowAfterTitle: string := "\"</strong> by "
  const BorrowAfterAuthor: string := ".</p>\n\t\t\t<p>Please remember to return it by <strong>"
  const BorrowTail: string := "</strong>.</p>\n\t\t\t<p>Happy reading!</p>\n\t\t\t<p>Library Team</p>\n\t\t\t</body>\n\t\t\t</html>\n\t\t"

  /** The fixed text of the return template around its three fields. */
  const ReturnHead: string := "\n\t\t\t<html>\n\t\t\t<body>\n\t\t\t<h2>Book Returned Successfully!</h2>\n\t\t\t<p>Dear "
  const ReturnAfterName: string := ",</p>\n\t\t\t<p>Thank you for returning the book <strong>\""
  const ReturnAfterTitle: string := "\"</strong> by "
  const ReturnTail: string := ".</p>\n\t\t\t<p>We hope you enjoyed reading it!</p>\n\t\t\t<p>Best regards,</p>\n\t\t\t<p>Library Team</p>\n\t\t\t</body>\n\t\t\t</html>\n\t\t"

  function BorrowBody(e: TaskMessage): string {
    BorrowHead + (e.userName + (BorrowAfterName + (e.bookTitle + (BorrowAfterTitle +
    (e.bookAuthor + (BorrowAfterAuthor + (e.dueDate + BorrowTail)))))))
  }

  function ReturnBody(e: TaskMessage): string {
    ReturnHead + (e.userName + (ReturnAfterName + (e.bookTitle + (ReturnAfterTitle +
    (e.bookAuthor + ReturnTail)))))
  }

  lemma ContainsPrepend2(x: string, y: string, text: string, part: string)
    requires Contains(text, part)
    ensures Contains(x + (y + text), part)
  {
    ContainsPrepend(y, text, part);
    ContainsPrepend(x, y + text, part);
  }

  /** A template of fixed texts `p0..p4` around four fields mentions each field. */
  lemma TemplateMentionsFour(p0: string, f1: string, p1: string, f2: string, p2: string,
                             f3: string, p3: string, f4: string, p4: string)
    ensures var s := p0 + (f1 + (p1 + (f2 + (p2 + (f3 + (p3 + (f4 + p4)))))));
            Contains(s, f1) && Contains(s, f2) && Contains(s, f3) && Contains(s, f4)
  {
    var s4 := f4 + p4;
    ContainsPrefix(f4, p4);
    var s3 := f3 + (p3 + s4);
    ContainsPrefix(f3, p3 + s4);
    ContainsPrepend2(f3, p3, s4, f4);
    var s2 := f2 + (p2 + s3);
    ContainsPrefix(f2, p2 + s3);
    ContainsPrepend2(f2, p2, s3, f3);
    ContainsPrepend2(f2, p2, s3, f4);
    var s1 := f1 + (p1 + s2);
    ContainsPrefix(f1, p1 + s2);
    ContainsPrepend2(f1, p1, s2, f2);
    ContainsPrepend2(f1, p1, s2, f3);
    ContainsPrepend2(f1, p1, s2, f4);
    ContainsPrepend(p0, s1, f1);
    ContainsPrepend(p0, s1, f2);
    ContainsPrepend(p0, s1, f3);
    ContainsPrepend(p0, s1, f4);
  }

  /** A template of fixed texts `p0..p3` around three fields mentions each field. */
  lemma TemplateMentionsThree(p0: string, f1: string, p1: string, f2: string, p2: string,
                              f3: string, p3: string)
    ensures var s := p0 + (f1 + (p1 + (f2 + (p2 + (f3 + p3)))));
            Contains(s, f1) && Contains(s, f2) && Contains(s, f3)
  {
    var s3 := f3 + p3;
    ContainsPrefix(f3, p3);
    var s2 := f2 + (p2 + s3);
    ContainsPrefix(f2, p2 + s3);
    ContainsPrepend2(f2, p2, s3, f3);
    var s1 := f1 + (p1 + s2);
    ContainsPrefix(f1, p1 + s2);
    ContainsPrepend2(f1, p1, s2, f2);
    ContainsPrepend2(f1, p1, s2, f3);
    ContainsPrepend(p0, s1, f1);
    ContainsPrepend(p0, s1, f2);
    ContainsPrepend(p0, s1, f3);
  }

  /**
   * `formatEmailContent`: a borrow names the reader, the book, its author and
   * the due date; a return names the reader, the book and its author; any
   * other type gets a fixed generic notice.
   */
  function FormatEmailContent(e: TaskMessage): (c: EmailContent)
    ensures e.msgType == "Borrow" ==>
              c.subject == BorrowSubject &&
              Contains(c.body, e.userName) && Contains(c.body, e.bookTitle) &&
              Contains(c.body, e.bookAuthor) && Contains(c.body, e.dueDate)
    ensures e.msgType == "Return" ==>
              c.subject == ReturnSubject &&
              Contains(c.body, e.userName) && Contains(c.body, e.bookTitle) &&
              Contains(c.body, e.bookAuthor)
    ensures e.msgType != "Borrow" && e.msgType != "Return" ==>
              c == EmailContent(UnknownSubject, UnknownBody)
  {
    if e.msgType == "Borrow" then
      TemplateMentionsFour(BorrowHead, e.userName, BorrowAfterName, e.bookTitle, BorrowAfterTitle,
                           e.bookAuthor, BorrowAfterAuthor, e.dueDate, BorrowTail);
      EmailContent(BorrowSubject, BorrowBody(e))
    else if e.msgType == "Return" then
      TemplateMentionsThree(ReturnHead, e.userName, ReturnAfterName, e.bookTitle, ReturnAfterTitle,
                            e.bookAuthor, ReturnTail);
      EmailContent(ReturnSubject, ReturnBody(e))
    else
      EmailContent(UnknownSubject, UnknownBody)
  }

  /**
   * `processMessage`: a body that does not decode is an unmarshal error and
   * an event without an email is "email is empty", neither sending anything;
   * otherwise exactly one email goes to the event's address with the
   * formatted subject and body, and the sender's answer is the result.
   */
  function ProcessMessage(d: Delivery): (p: Processed)
    ensures d.body.Malformed? ==>
              p.sent.None? && p.error == Some(UnmarshalPrefix + d.body.reason)
    ensures d.body.Decoded? && d.body.event.email == "" ==>
              p == Processed(None, Some(EmptyEmail))
    ensures d.body.Decoded? && d.body.event.email != "" ==>
              var content := FormatEmailContent(d.body.event);
              p.sent == Some(Email(d.body.event.email, content.subject, content.body)) &&
              p.error == d.sendError
    ensures p.sent.Some? ==> p.sent.value.to != ""
  {
    match d.body
    case Malformed(reason) => Processed(None, Some(UnmarshalPrefix + reason))
    case Decoded(event) =>
      if event.email == "" then Processed(None, Some(EmptyEmail))
      else
        var content := FormatEmailContent(event);
        Processed(Some(Email(event.email, content.subject, content.body)), d.sendError)
  }

  /** Every unmarshal error message starts with "failed to unmarshal message". */
  lemma UnmarshalErrorPrefix(reason: string)
    ensures ProcessMessage(Delivery(Malformed(reason), None)).error.value[..|UnmarshalPrefix|] == UnmarshalPrefix
  {
  }

  /** How `SendNotification` settles one delivery: ack on success, nack with requeue otherwise. */
  function Settle(d: Delivery): Settlement {
    if ProcessMessage(d).error.None? then Ack else Nack(true)
  }

  /**
   * The emails a run over `ds` hands to the sender, in delivery order. Every
   * one has a non-empty address, and there is at most one per delivery.
   */
  function SentEmails(ds: seq<Delivery>): (es: seq<Email>)
    ensures |es| <= |ds|
    ensures forall e :: e in es ==> e.to != ""
    decreases |ds|
  {
    if ds == [] then []
    else
      var last := ProcessMessage(ds[|ds| - 1]);
      SentEmails(ds[..|ds| - 1]) + (if last.sent.Some? then [last.sent.value] else [])
  }

  /** Processing one more delivery adds its email, if it has one, at the end. */
  lemma SentEmailsExtend(ds: seq<Delivery>, i: nat)
    requires i < |ds|
    ensures SentEmails(ds[..i + 1]) ==
              SentEmails(ds[..i]) + (if ProcessMessage(ds[i]).sent.Some? then [ProcessMessage(ds[i]).sent.value] else [])
  {
    assert ds[..i + 1][..i] == ds[..i];
  }

  /**
   * `SendNotification`: a failed dependency set-up is `Internal "Server
   * Error"` with nothing settled; so is a subscription to the queue the
   * request names when the broker has no such queue. Otherwise every
   * delivery of that queue is processed in order and acked or
   * nacked-with-requeue by its own outcome, and the response is a success
   * whatever the individual emails did. `queues` holds the deliveries the
   * broker hands out on each queue.
   */
  method SendNotification(req: NotificationRequest, initOk: bool, queues: map<string, seq<Delivery>>)
    returns (r: Result<NotificationResponse>, settled: seq<Settlement>, sent: seq<Email>)
    ensures !initOk || req.notificationType !in queues ==>
              r == Err(Status(Internal, "Server Error")) && settled == [] && sent == []
    ensures initOk && req.notificationType in queues ==>
              var consumed := queues[req.notificationType];
              r == Ok(NotificationResponse(true)) &&
              |settled| == |consumed| &&
              (forall i :: 0 <= i < |settled| ==>
                 (settled[i] == Ack <==> ProcessMessage(consumed[i]).error.None?) &&
                 (settled[i] != Ack ==> settled[i] == Nack(true))) &&
              sent == SentEmails(consumed)
  {
    settled, sent := [], [];
    if !initOk || req.notificationType !in queues {
      return Err(Status(Internal, "Server Error")), settled, sent;
    }
    var ds := queues[req.notificationType];
    var i := 0;
    while i < |ds|
      invariant 0 <= i <= |ds|
      invariant |settled| == i
      invariant forall k :: 0 <= k < i ==> settled[k] == Settle(ds[k])
      invariant sent == SentEmails(ds[..i])
    {
      var p := ProcessMessage(ds[i]);
      if p.sent.Some? {
        sent := sent + [p.sent.value];
      }
      if p.error.Some? {
        settled := settled + [Nack(true)];
      } else {
        settled := settled + [Ack];
      }
      SentEmailsExtend(ds, i);
      i := i + 1;
    }
    assert ds[..i] == ds;
    r := Ok(NotificationResponse(true));
  }
}
