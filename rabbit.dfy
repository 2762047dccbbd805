/**
 * The broker client's message record and its routing switch: a task message
 * is published to exchange "library" under a routing key chosen by its type.
 * The AMQP channel itself is a parameter: the error, if any, that
 * `PublishWithContext` returns.
 */
module Rabbit {
  import opened Wrappers

  /** `rabbit.TaskMessage`: the event a completed borrow or return publishes. */
  datatype TaskMessage = TaskMessage(
    msgType: string,
    userName: string,
    bookTitle: string,
    bookAuthor: string,
    dueDate: string,
    loanId: string,
    email: string)

  const Exchange: string := "library"
  const BorrowQueue: string := "borrow_queue"
  const ReturnQueue: string := "return_queue"
  const InvalidQueue: string := "invalid queue"

  /** What the broker receives: exchange, routing key and the message body. */
  datatype Publication = Publication(exchange: string, routingKey: string, message: TaskMessage)

  /** The outcome of `PublishTask`: the publication made, or the error returned. */
  datatype PublishResult = Published(publication: Publication) | PublishFailed(error: string)

  /**
   * The `switch` on the message type: "Borrow" and "Return", matched exactly
   * and case-sensitively, have their own queue; every other type has none.
   */
  function RoutingKey(msgType: string): (key: Option<string>)
    ensures key == Some(BorrowQueue) <==> msgType == "Borrow"
    ensures key == Some(ReturnQueue) <==> msgType == "Return"
    ensures key.None? <==> msgType != "Borrow" && msgType != "Return"
  {
    if msgType == "Borrow" then Some(BorrowQueue)
    else if msgType == "Return" then Some(ReturnQueue)
    else None
  }

  /**
   * `PublishTask`: a message of an unknown type is refused with "invalid
   * queue" before the channel is used; otherwise it goes to exchange
   * "library" under its routing key, and a channel error is returned as is.
   */
  function PublishTask(message: TaskMessage, channelError: Option<string>): (r: PublishResult)
    ensures RoutingKey(message.msgType).None? ==> r == PublishFailed(InvalidQueue)
    ensures RoutingKey(message.msgType).Some? && channelError.Some? ==> r == PublishFailed(channelError.value)
    ensures r.Published? <==> RoutingKey(message.msgType).Some? && channelError.None?
    ensures r.Published? ==>
              r.publication.exchange == Exchange &&
              Some(r.publication.routingKey) == RoutingKey(message.msgType) &&
              r.publication.message == message
  {
    match RoutingKey(message.msgType)
    case None => PublishFailed(InvalidQueue)
    case Some(key) =>
      if channelError.Some? then PublishFailed(channelError.value)
      else Published(Publication(Exchange, key, message))
  }

  /** The two accepted types never share a queue. */
  lemma RoutingKeysDistinct(t1: string, t2: string)
    requires RoutingKey(t1).Some? && RoutingKey(t2).Some? && t1 != t2
    ensures RoutingKey(t1) != RoutingKey(t2)
  {
  }
}
