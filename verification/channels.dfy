/**
 * A `std::sync::mpsc` channel seen from one thread: a FIFO of messages that
 * `send` appends to and `try_recv` takes from the front of. Send never fails
 * here because every receiver in the program outlives its senders.
 */
module Channels {
  import opened Wrappers

  class Channel<T> {
    var pending: seq<T>

    constructor ()
      ensures pending == []
    {
      pending := [];
    }

    /** `tx.send(x)`. */
    method Send(x: T)
      modifies this
      ensures pending == old(pending) + [x]
    {
      pending := pending + [x];
    }

    /** `rx.try_recv()`: the oldest message, or nothing when the queue is empty. */
    method TryRecv() returns (r: Option<T>)
      modifies this
      ensures old(pending) == [] ==> r == None && pending == []
      ensures old(pending) != [] ==> r == Some(old(pending)[0]) && pending == old(pending)[1..]
    {
      if pending == [] {
        r := None;
      } else {
        r := Some(pending[0]);
        pending := pending[1..];
      }
    }
  }
}
