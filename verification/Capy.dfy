/** capy::async_event, the one synchronisation primitive the library uses: a manual-reset event
    with at most one waiter. set() posts the waiter's resumption and never runs it inline. */
module Capy {

  /** The capy::error values that reach callers. */
  datatype Error = Eof | StreamTruncated | Canceled

  /** eof_error(): what a stream reports once nothing more is coming. */
  function EofError(readEof: bool): Error {
    if readEof then Eof else StreamTruncated
  }

  /** Posted means the resumption is queued; `ok` is false when it carries a cancellation. */
  datatype Waiter = Nobody | Waiting | Posted(ok: bool)

  datatype AsyncEvent = AsyncEvent(isSet: bool, waiter: Waiter) {

    function Set(): AsyncEvent {
      AsyncEvent(true, if waiter.Waiting? then Posted(true) else waiter)
    }

    function Clear(): AsyncEvent {
      this.(isSet := false)
    }

    /** A coroutine starts to wait; on a set event the wait is over at once. */
    function Wait(): AsyncEvent {
      this.(waiter := if isSet then Posted(true) else Waiting)
    }

    /** A stop request ends a wait that no set() has ended yet. */
    function Cancel(): AsyncEvent {
      if waiter.Waiting? then this.(waiter := Posted(false)) else this
    }

    /** The waiter's coroutine runs again. */
    function Resumed(): AsyncEvent {
      this.(waiter := Nobody)
    }
  }

  const FRESH := AsyncEvent(false, Nobody)
}
