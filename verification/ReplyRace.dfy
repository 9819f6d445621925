/** Callbacks that race to answer one request, each under the lock, with one waiter that reads the outcome. */
module ReplyRace {
  import opened Common

  /** The error handler of the connection, or the reply of the service, which may carry no value. */
  datatype Callback<T> = ConnectionError(failure: RemoteError) | Reply(value: Option<T>, error: Option<RemoteError>)

  /** An error as it arrives: whether it is of the control service's own domain, and its code. */
  datatype RemoteError = RemoteError(ours: bool, code: int)

  datatype ControlError = Timeout | RemoteRejected | ControlUnavailable | ControlPeerMismatch | ControlReplay
                        | ControlInProgress | ControlSessionMissing

  function MapRemoteError(error: Option<RemoteError>): ControlError {
    if error.None? || !error.value.ours then RemoteRejected
    else match error.value.code
      case 1 => ControlUnavailable
      case 2 => ControlPeerMismatch
      case 3 => ControlReplay
      case 4 => ControlInProgress
      case 5 => ControlSessionMissing
      case _ => RemoteRejected
  }

  /** The codes 1 to 5 of the service's own domain, in order; anything else is a rejection. */
  ghost function ReportedAs(error: Option<RemoteError>): ControlError {
    if error.Some? && error.value.ours && 1 <= error.value.code <= 5
    then [ControlUnavailable, ControlPeerMismatch, ControlReplay, ControlInProgress, ControlSessionMissing][error.value.code - 1]
    else RemoteRejected
  }

  datatype Outcome<T> = Returned(value: T) | Threw(error: ControlError)

  /** The value carried by the first callback that carries one. */
  function FirstValue<T>(callbacks: seq<Callback<T>>): Option<T> {
    if callbacks == [] then None
    else if callbacks[0].Reply? && callbacks[0].value.Some? then callbacks[0].value
    else FirstValue(callbacks[1..])
  }

  lemma {:induction false} FirstValueAppend<T>(callbacks: seq<Callback<T>>, c: Callback<T>)
    ensures FirstValue(callbacks + [c]) ==
            if FirstValue(callbacks).Some? then FirstValue(callbacks) else if c.Reply? then c.value else None
  {
    if callbacks != [] {
      assert (callbacks + [c])[1..] == callbacks[1..] + [c];
      FirstValueAppend(callbacks[1..], c);
    }
  }

  /** The error of the latest callback. */
  function LatestError<T>(callbacks: seq<Callback<T>>): Option<RemoteError>
    requires callbacks != []
  {
    var last := callbacks[|callbacks| - 1];
    if last.ConnectionError? then Some(last.failure) else last.error
  }

  /** The host-control client: a late value still wins over an earlier failure. */
  class ControlInvocation<T(==)> {
    var result: Option<T>
    var failed: bool
    var remoteError: Option<RemoteError>
    var signals: nat
    var connectionValid: bool
    ghost var callbacks: seq<Callback<T>>

    /** After any callback the request has failed exactly when no value has arrived; the first value is kept, and
        until there is one, the latest error. */
    ghost predicate Valid() reads this {
      && result == FirstValue(callbacks)
      && (callbacks != [] && result.None? ==> remoteError == LatestError(callbacks))
      && (callbacks != [] ==> failed == result.None? && signals > 0)
      && (callbacks == [] ==> !failed && signals == 0)
    }

    constructor ()
      ensures Valid() && callbacks == [] && connectionValid
    {
      result, failed, remoteError, signals, callbacks := None, false, None, 0, [];
      connectionValid := true;
    }

    method OnConnectionError(error: RemoteError)
      requires Valid()
      modifies this
      ensures Valid() && connectionValid == old(connectionValid) && callbacks == old(callbacks) + [ConnectionError(error)]
    {
      FirstValueAppend(callbacks, ConnectionError(error));
      callbacks := callbacks + [ConnectionError(error)];
      if result.None? {
        failed, remoteError, signals := true, Some(error), signals + 1;
      }
    }

    method OnReply(value: Option<T>, error: Option<RemoteError>)
      requires Valid()
      modifies this
      ensures Valid() && connectionValid == old(connectionValid) && callbacks == old(callbacks) + [Reply(value, error)]
    {
      FirstValueAppend(callbacks, Reply(value, error));
      callbacks := callbacks + [Reply(value, error)];
      if result.None? {
        result, failed := value, value.None?;
        if value.None? { remoteError := error; }
        signals := signals + 1;
      }
    }

    /** What the waiter ends with. A wait that was signalled in time gives the first value among all callbacks so far, or
        without one the latest error, mapped; one that was not invalidates the connection. */
    method Wait(signalled: bool) returns (outcome: Outcome<T>)
      requires Valid() && (signalled ==> signals > 0)
      modifies this`connectionValid
      ensures Valid() && connectionValid == (old(connectionValid) && signalled)
      ensures outcome ==
        if !signalled then Threw(Timeout)
        else if FirstValue(callbacks).Some? then Returned(FirstValue(callbacks).value)
        else Threw(ReportedAs(LatestError(callbacks)))
    {
      if !signalled {
        connectionValid := false;
        return Threw(Timeout);
      }
      if failed { return Threw(MapRemoteError(remoteError)); }
      if result.None? { return Threw(RemoteRejected); }
      return Returned(result.value);
    }
  }

  datatype HostReply<T> = Response(value: T) | RemoteFailure | TimedOut

  /** The activation host: the first callback decides, and signals once. */
  class SingleReply<T(==)> {
    var completed: bool
    var result: Option<T>
    var signals: nat
    ghost var callbacks: seq<Option<T>>

    ghost predicate Valid() reads this {
      && completed == (callbacks != []) && signals == (if completed then 1 else 0)
      && (completed ==> result == callbacks[0])
    }

    constructor ()
      ensures Valid() && callbacks == []
    {
      completed, result, signals, callbacks := false, None, 0, [];
    }

    method Complete(response: Option<T>)
      requires Valid()
      modifies this
      ensures Valid() && callbacks == old(callbacks) + [response]
    {
      if !completed { completed, result, signals := true, response, signals + 1; }
      callbacks := callbacks + [response];
    }

    /** What the waiter ends with: nothing in time, or what the first callback brought, or that it brought nothing. */
    method Wait(signalled: bool) returns (reply: HostReply<T>)
      requires Valid() && (signalled ==> signals > 0)
      ensures reply == if !signalled then TimedOut
                       else if callbacks[0].Some? then Response(callbacks[0].value) else RemoteFailure
    {
      if !signalled { return TimedOut; }
      if result.None? { return RemoteFailure; }
      return Response(result.value);
    }
  }
}
