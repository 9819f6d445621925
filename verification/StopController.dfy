/** The stop controller of the agent host: signals, a connection, a handler and a bootstrap mark under one lock.

    Every operation is a critical section followed, after the lock is released, by the actions it decided on. `log` is
    the order of the critical sections, which is any order; the actions come any time later. */
module StopController {
  import opened Common

  datatype Op = SetConnection | MarkBootstrapKnown | SetStopHandler | RequestStop

  type Log = seq<Op>

  predicate Stopped(log: Log) { exists k :: 0 <= k < |log| && log[k] == RequestStop }

  predicate Known(log: Log) { exists k :: 0 <= k < |log| && log[k] == MarkBootstrapKnown }

  /** The position of the latest operation of a kind, which is the one whose argument is stored. */
  function Latest(log: Log, op: Op): (r: Option<nat>)
    ensures r.Some? ==> r.value < |log| && log[r.value] == op && forall k :: r.value < k < |log| ==> log[k] != op
    ensures r.None? ==> forall k :: 0 <= k < |log| ==> log[k] != op
  {
    if log == [] then None
    else if log[|log| - 1] == op then Some(|log| - 1)
    else Latest(log[..|log| - 1], op)
  }

  /** What an operation does after its critical section: which connection it invalidates, which handler it runs, and
      whether it wakes the waiter. Connections and handlers are named by the position of their registration. */
  datatype Actions = Actions(invalidate: Option<nat>, run: Option<nat>, wake: bool)

  function Decide(log: Log, op: Op): Actions {
    match op
    case SetConnection => Actions(if Stopped(log) && !Known(log) then Some(|log|) else None, None, false)
    case MarkBootstrapKnown => Actions(None, None, false)
    case SetStopHandler => Actions(None, if Stopped(log) then Some(|log|) else None, false)
    case RequestStop =>
      Actions(if Known(log) then None else Latest(log, SetConnection), Latest(log, SetStopHandler), true)
  }

  /** The fields of the source. A connection or handler is the number of its registration. */
  class ActivationSignalController {
    var stopRequested: bool
    var bootstrapKnown: bool
    var connection: Option<nat>
    var stopHandler: Option<nat>
    var registrations: nat
    ghost var log: Log

    ghost predicate Valid() reads this {
      && stopRequested == Stopped(log) && bootstrapKnown == Known(log)
      && connection == Latest(log, SetConnection) && stopHandler == Latest(log, SetStopHandler)
      && registrations == |log|
    }

    constructor ()
      ensures Valid() && log == []
    {
      stopRequested, bootstrapKnown, connection, stopHandler, registrations, log := false, false, None, None, 0, [];
    }

    method EnterSetConnection() returns (actions: Actions)
      requires Valid()
      modifies this
      ensures Valid() && log == old(log) + [SetConnection] && actions == Decide(old(log), SetConnection)
    {
      LogOn(log, SetConnection);
      connection := Some(registrations);
      var shouldInvalidate := stopRequested && !bootstrapKnown;
      actions := Actions(if shouldInvalidate then Some(registrations) else None, None, false);
      registrations, log := registrations + 1, log + [SetConnection];
    }

    method EnterMarkBootstrapKnown() returns (actions: Actions)
      requires Valid()
      modifies this
      ensures Valid() && log == old(log) + [MarkBootstrapKnown] && actions == Decide(old(log), MarkBootstrapKnown)
    {
      LogOn(log, MarkBootstrapKnown);
      bootstrapKnown := true;
      actions := Actions(None, None, false);
      registrations, log := registrations + 1, log + [MarkBootstrapKnown];
    }

    method EnterSetStopHandler() returns (actions: Actions)
      requires Valid()
      modifies this
      ensures Valid() && log == old(log) + [SetStopHandler] && actions == Decide(old(log), SetStopHandler)
    {
      LogOn(log, SetStopHandler);
      stopHandler := Some(registrations);
      actions := Actions(None, if stopRequested then Some(registrations) else None, false);
      registrations, log := registrations + 1, log + [SetStopHandler];
    }

    method EnterRequestStop() returns (actions: Actions)
      requires Valid()
      modifies this
      ensures Valid() && log == old(log) + [RequestStop] && actions == Decide(old(log), RequestStop)
    {
      LogOn(log, RequestStop);
      stopRequested := true;
      actions := Actions(if bootstrapKnown then None else connection, stopHandler, true);
      registrations, log := registrations + 1, log + [RequestStop];
    }
  }

  /** What one more operation changes. */
  lemma LogOn(log: Log, op: Op)
    ensures var longer := log + [op];
      && Stopped(longer) == (Stopped(log) || op == RequestStop)
      && Known(longer) == (Known(log) || op == MarkBootstrapKnown)
      && forall kind :: Latest(longer, kind) == if kind == op then Some(|log|) else Latest(log, kind)
  {
    var longer := log + [op];
    assert longer[..|log|] == log && longer[|log|] == op;
    assert forall k :: 0 <= k < |log| ==> longer[k] == log[k];
  }

  // What has happened once the operations in `returned` have returned.

  ghost predicate HandlerRan(log: Log, returned: set<nat>, i: nat) {
    exists k :: k in returned && Does(log, k).run == Some(i)
  }

  ghost predicate ConnectionInvalidated(log: Log, returned: set<nat>, i: nat) {
    exists k :: k in returned && Does(log, k).invalidate == Some(i)
  }

  function Does(log: Log, k: nat): Actions {
    if k < |log| then Decide(log[..k], log[k]) else Actions(None, None, false)
  }

  /** No other registration of the same kind comes between registration `i` and the stop `j`. */
  ghost predicate StillStored(log: Log, i: nat, j: nat)
    requires i < |log| && j <= |log|
  {
    forall k :: i < k < j ==> log[k] != log[i]
  }

  lemma LatestExactly(log: Log, j: nat, op: Op, i: nat)
    requires j <= |log|
    ensures Latest(log[..j], op) == Some(i) <==> i < j && log[i] == op && StillStored(log, i, j)
  {
    var before := log[..j];
    assert forall k :: 0 <= k < j ==> before[k] == log[k];
    var r := Latest(before, op);
    if i < j && log[i] == op && StillStored(log, i, j) {
      assert before[i] == op;
    }
  }

  lemma StoppedExactly(log: Log, i: nat)
    requires i <= |log|
    ensures Stopped(log[..i]) <==> exists j :: 0 <= j < i && log[j] == RequestStop
    ensures Known(log[..i]) <==> exists j :: 0 <= j < i && log[j] == MarkBootstrapKnown
  {
    var before := log[..i];
    assert forall k :: 0 <= k < i ==> before[k] == log[k];
    if exists j :: 0 <= j < i && log[j] == RequestStop {
      var j :| 0 <= j < i && log[j] == RequestStop;
      assert before[j] == RequestStop;
    }
    if exists j :: 0 <= j < i && log[j] == MarkBootstrapKnown {
      var j :| 0 <= j < i && log[j] == MarkBootstrapKnown;
      assert before[j] == MarkBootstrapKnown;
    }
  }

  /** The stop `j` and the registration `i` have met: the later of them has returned, so what it decided is done. */
  predicate Met(returned: set<nat>, i: nat, j: nat) { (if i < j then j else i) in returned }

  /** A stop request is never lost: once the later of a stop and a registration of a handler has returned, that handler has
      run, whichever came first, unless another handler took its place before the stop. */
  lemma StopIsNeverLost(log: Log, returned: set<nat>, i: nat, j: nat)
    requires i < |log| && log[i] == SetStopHandler && j < |log| && log[j] == RequestStop
    requires Met(returned, i, j) && StillStored(log, i, j)
    ensures HandlerRan(log, returned, i)
  {
    if j < i {
      StoppedExactly(log, i);
      assert Does(log, i).run == Some(i) by { assert |log[..i]| == i; }
    } else {
      LatestExactly(log, j, SetStopHandler, i);
      assert Does(log, j).run == Some(i);
    }
  }

  /** And that is the only way: a handler has run exactly if some stop came before it or came while it was stored, and the
      later of the two has returned, whatever else is still running. */
  lemma HandlerRunsExactly(log: Log, returned: set<nat>, i: nat)
    requires i < |log| && log[i] == SetStopHandler
    ensures HandlerRan(log, returned, i) <==>
            exists j :: 0 <= j < |log| && log[j] == RequestStop && StillStored(log, i, j) && Met(returned, i, j)
  {
    if HandlerRan(log, returned, i) {
      var k :| k in returned && Does(log, k).run == Some(i);
      if log[k] == SetStopHandler {
        assert k == i;
        StoppedExactly(log, i);
        var j :| 0 <= j < i && log[j] == RequestStop;
        assert StillStored(log, i, j) && Met(returned, i, j);
      } else {
        LatestExactly(log, k, SetStopHandler, i);
        assert log[k] == RequestStop && StillStored(log, i, k) && Met(returned, i, k);
      }
    }
    if exists j :: 0 <= j < |log| && log[j] == RequestStop && StillStored(log, i, j) && Met(returned, i, j) {
      var j :| 0 <= j < |log| && log[j] == RequestStop && StillStored(log, i, j) && Met(returned, i, j);
      StopIsNeverLost(log, returned, i, j);
    }
  }

  /** Neither the registration `i` nor the stop `j` comes after the bootstrap became known. */
  ghost predicate BeforeKnown(log: Log, i: nat, j: nat)
    requires i < |log| && j < |log|
  {
    forall k :: 0 <= k < |log| && (k < i || k < j) ==> log[k] != MarkBootstrapKnown
  }

  /** A connection has been invalidated exactly if some stop and its registration both preceded the bootstrap mark, in
      either order, with no other connection stored in between, and the later of the two has returned. */
  lemma ConnectionInvalidatedExactly(log: Log, returned: set<nat>, i: nat)
    requires i < |log| && log[i] == SetConnection
    ensures ConnectionInvalidated(log, returned, i) <==>
            exists j :: 0 <= j < |log| && log[j] == RequestStop && StillStored(log, i, j) && BeforeKnown(log, i, j)
                        && Met(returned, i, j)
  {
    if ConnectionInvalidated(log, returned, i) {
      var k :| k in returned && Does(log, k).invalidate == Some(i);
      StoppedExactly(log, k);
      if log[k] == SetConnection {
        assert k == i;
        var j :| 0 <= j < i && log[j] == RequestStop;
        assert StillStored(log, i, j) && BeforeKnown(log, i, j) && Met(returned, i, j);
      } else {
        LatestExactly(log, k, SetConnection, i);
        assert log[k] == RequestStop && StillStored(log, i, k) && BeforeKnown(log, i, k) && Met(returned, i, k);
      }
    }
    if exists j :: 0 <= j < |log| && log[j] == RequestStop && StillStored(log, i, j) && BeforeKnown(log, i, j)
                   && Met(returned, i, j) {
      var j :| 0 <= j < |log| && log[j] == RequestStop && StillStored(log, i, j) && BeforeKnown(log, i, j)
               && Met(returned, i, j);
      if j < i {
        StoppedExactly(log, i);
        assert |log[..i]| == i && Does(log, i).invalidate == Some(i);
      } else {
        StoppedExactly(log, j);
        LatestExactly(log, j, SetConnection, i);
        assert Does(log, j).invalidate == Some(i);
      }
    }
  }

  /** A handler replaced before the stop never runs; the one that replaced it does. */
  lemma ReplacedHandlerNeverRuns(returned: set<nat>)
    requires 2 in returned
    ensures var log := [SetStopHandler, SetStopHandler, RequestStop];
            !HandlerRan(log, returned, 0) && HandlerRan(log, returned, 1)
  {
    var log := [SetStopHandler, SetStopHandler, RequestStop];
    HandlerRunsExactly(log, returned, 0);
    HandlerRunsExactly(log, returned, 1);
    assert log[2] == RequestStop && StillStored(log, 1, 2) && Met(returned, 1, 2);
  }

  /** The waiter has been woken. */
  ghost predicate Woken(log: Log, returned: set<nat>) { exists k :: k in returned && Does(log, k).wake }

  /** The waiter is woken exactly by stops: some stop has returned. */
  lemma WokenExactly(log: Log, returned: set<nat>)
    ensures Woken(log, returned) <==> exists j :: 0 <= j < |log| && log[j] == RequestStop && j in returned
  {
    if exists j :: 0 <= j < |log| && log[j] == RequestStop && j in returned {
      var j :| 0 <= j < |log| && log[j] == RequestStop && j in returned;
      assert Does(log, j).wake;
    }
  }
}
