/** The activation of the agent host after its service has answered: the hard deadline, the polling loop and its exits. */
module Activation {
  import opened Common

  const EXPIRY_GRACE_SECONDS: nat := 5
  const MAX_DEADLINE_SECONDS: nat := 28_805
  const POLL_MILLISECONDS: nat := 1000

  /** Division that truncates toward zero. */
  function TruncatedDivide(a: int, b: int): int
    requires b > 0
  {
    if a >= 0 then a / b else -((-a) / b)
  }

  /** The deadline lies at least five and less than six seconds after expiry exactly for sessions that have not expired
      and last at most eight hours. Times are in milliseconds. */
  function DeadlineSeconds(expiry: int, now: int): (seconds: nat)
    ensures 1 <= seconds <= MAX_DEADLINE_SECONDS
    ensures 5000 <= seconds * 1000 - (expiry - now) < 6000 <==> 0 < expiry - now <= 28_800_000
    ensures expiry <= now ==> seconds == 6
    ensures expiry - now > 28_800_000 ==> seconds == 28_805
  {
    var rounded := TruncatedDivide(expiry - now + 999, 1000);
    var remaining := if rounded > 1 then rounded else 1;
    if remaining + EXPIRY_GRACE_SECONDS < MAX_DEADLINE_SECONDS then remaining + EXPIRY_GRACE_SECONDS
    else MAX_DEADLINE_SECONDS
  }

  datatype Reply<+T> = Response(value: T) | RemoteFailure | TimedOut

  datatype Output = ClosedOutput | ActivationRejected | Interrupted | ReplyLost | CloseFailed | ExpiryTimeout | StatusFailed

  datatype Exit = Exit(status: nat, output: Output)

  /** Everything the loop is told, turn by turn: whether a stop was requested, the monotonic clock, the service's status
      reply, whether a stop was requested by the time that reply failed, and whether a close was acknowledged. */
  datatype Surroundings = Surroundings(
    stopAt: nat -> bool, clock: nat -> int, statusRequestValid: bool, statusActive: nat -> Reply<bool>,
    stopLater: nat -> bool, closeAcknowledged: nat -> bool)

  /** A stop stays requested, and only a stop ends the wait between two turns early. */
  ghost predicate Steady(s: Surroundings) {
    && (forall k: nat :: s.stopAt(k) ==> s.stopAt(k + 1))
    && (forall k: nat :: !s.stopAt(k + 1) ==> s.clock(k + 1) >= s.clock(k) + POLL_MILLISECONDS)
  }

  /** The service as the host sees it, with a record of what was asked of it. */
  class Service {
    const surroundings: Surroundings
    const firstStart: Reply<int>
    const secondStart: Reply<int>
    var starts: nat
    var polls: nat
    var closes: nat
    var acknowledged: bool
    var inactive: bool

    constructor (surroundings: Surroundings, firstStart: Reply<int>, secondStart: Reply<int>)
      ensures this.surroundings == surroundings && this.firstStart == firstStart && this.secondStart == secondStart
      ensures starts == 0 && polls == 0 && closes == 0 && !acknowledged && !inactive
    {
      this.surroundings, this.firstStart, this.secondStart := surroundings, firstStart, secondStart;
      starts, polls, closes, acknowledged, inactive := 0, 0, 0, false, false;
    }

    method StartSession() returns (reply: Reply<int>)
      modifies this`starts
      ensures starts == old(starts) + 1 && reply == if old(starts) == 0 then firstStart else secondStart
    {
      reply := if starts == 0 then firstStart else secondStart;
      starts := starts + 1;
    }

    method Status(turn: nat) returns (reply: Reply<bool>)
      modifies this`polls, this`inactive
      ensures polls == old(polls) + 1 && reply == surroundings.statusActive(turn)
      ensures inactive == (old(inactive) || reply == Response(false))
    {
      reply := surroundings.statusActive(turn);
      polls := polls + 1;
      if reply == Response(false) { inactive := true; }
    }

    method Close(turn: nat) returns (ok: bool)
      modifies this`closes, this`acknowledged
      ensures closes == old(closes) + 1 && ok == surroundings.closeAcknowledged(turn)
      ensures acknowledged == (old(acknowledged) || ok)
    {
      ok := surroundings.closeAcknowledged(turn);
      closes := closes + 1;
      acknowledged := acknowledged || ok;
    }
  }

  /** At turn `k` the loop has a reason to end. */
  ghost predicate EndsAt(s: Surroundings, deadline: int, k: nat) {
    s.stopAt(k) || s.clock(k) >= deadline || !s.statusRequestValid || s.statusActive(k) != Response(true)
  }

  /** How the loop ends at its last turn, by the first reason that holds there: a stop, the deadline, a status request that
      cannot be made, a status reply that failed, or a session no longer active. Only the last ends without a close. */
  ghost predicate EndsAs(s: Surroundings, deadline: int, n: nat, polls: nat, closes: nat, exit: Exit) {
    if s.stopAt(n) then
      && polls == n && closes == 1
      && exit == if s.closeAcknowledged(n) then Exit(0, ClosedOutput) else Exit(1, CloseFailed)
    else if s.clock(n) >= deadline then
      polls == n && closes == 1 && exit == Exit(1, ExpiryTimeout)
    else if !s.statusRequestValid then
      polls == n && closes == 1 && exit == Exit(1, StatusFailed)
    else if !s.statusActive(n).Response? then
      && polls == n + 1 && closes == 1
      && exit == if s.stopLater(n) && s.closeAcknowledged(n) then Exit(0, ClosedOutput) else Exit(1, StatusFailed)
    else
      polls == n + 1 && closes == 0 && exit == Exit(0, ClosedOutput)
  }

  /** The loop ends at the first turn that has a reason to end, which comes within one turn per second of the deadline, and
      it ends there as that reason says. In particular it exits with status 0 only after an acknowledged close or a status
      that is not active, and it attempts exactly one close unless that status ended it. */
  method PollUntilClosed(service: Service, start: int, deadlineSeconds: nat) returns (exit: Exit, ghost last: nat)
    requires Steady(service.surroundings) && start <= service.surroundings.clock(0)
    requires service.polls == 0 && service.closes == 0 && !service.acknowledged && !service.inactive
    modifies service`polls, service`inactive, service`closes, service`acknowledged
    ensures last <= deadlineSeconds && EndsAt(service.surroundings, start + deadlineSeconds * 1000, last)
    ensures var deadline := start + deadlineSeconds * 1000;
      forall k: nat :: k < last ==> !EndsAt(service.surroundings, deadline, k)
    ensures EndsAs(service.surroundings, start + deadlineSeconds * 1000, last, service.polls, service.closes, exit)
    ensures service.polls <= deadlineSeconds
    ensures exit.status == 0 ==> service.inactive || service.acknowledged
    ensures service.closes == if service.inactive then 0 else 1
    ensures service.inactive ==> exit == Exit(0, ClosedOutput)
    ensures exit.status == 0 <==> exit.output == ClosedOutput
  {
    var s := service.surroundings;
    var deadline := start + deadlineSeconds * 1000;
    var turn: nat := 0;
    while true
      invariant s.stopAt(turn) || s.clock(turn) >= start + turn * POLL_MILLISECONDS
      invariant turn <= deadlineSeconds && service.polls == turn
      invariant forall k: nat :: k < turn ==> !EndsAt(s, deadline, k)
      invariant service.closes == 0 && !service.acknowledged && !service.inactive
      decreases !s.stopAt(turn), deadlineSeconds - turn
    {
      if s.stopAt(turn) {
        var closed := service.Close(turn);
        return if closed then Exit(0, ClosedOutput) else Exit(1, CloseFailed), turn;
      }
      if s.clock(turn) >= deadline {
        var _ := service.Close(turn);
        return Exit(1, ExpiryTimeout), turn;
      }
      if !s.statusRequestValid {
        var _ := service.Close(turn);
        return Exit(1, StatusFailed), turn;
      }
      var reply := service.Status(turn);
      match reply {
        case Response(active) =>
          if !active { return Exit(0, ClosedOutput), turn; }
        case _ =>
          var closed := service.Close(turn);
          return if s.stopLater(turn) && closed then Exit(0, ClosedOutput) else Exit(1, StatusFailed), turn;
      }
      turn := turn + 1;
    }
  }

  /** From the bootstrap reply on: a session is started exactly when the bootstrap was answered, no stop was requested and
      the request can be made; it is started again exactly when the first reply timed out. The loop runs exactly when one
      of the replies arrived, to the deadline of that reply, and every other exit says what was missing. */
  method Activate(service: Service, bootstrap: Reply<()>, stopRequested: bool, requestValid: bool, now: int, start: int)
    returns (exit: Exit, ghost last: nat)
    requires Steady(service.surroundings) && start <= service.surroundings.clock(0)
    requires service.starts == 0 && service.polls == 0 && service.closes == 0 && !service.acknowledged && !service.inactive
    modifies service
    ensures service.starts ==
      if !bootstrap.Response? || stopRequested || !requestValid then 0 else if service.firstStart.TimedOut? then 2 else 1
    ensures service.starts == 0 ==>
      exit == Exit(1, if !bootstrap.Response? && !stopRequested then ActivationRejected else Interrupted)
    ensures service.starts == 1 && !service.firstStart.Response? ==> exit == Exit(1, ActivationRejected)
    ensures service.starts == 2 && !service.secondStart.Response? ==> exit == Exit(1, ReplyLost)
    ensures var answered := if service.starts == 1 then service.firstStart else service.secondStart;
            if service.starts > 0 && answered.Response?
            then var deadline := start + DeadlineSeconds(answered.value, now) * 1000;
                 && last <= DeadlineSeconds(answered.value, now) && EndsAt(service.surroundings, deadline, last)
                 && (forall k: nat :: k < last ==> !EndsAt(service.surroundings, deadline, k))
                 && EndsAs(service.surroundings, deadline, last, service.polls, service.closes, exit)
                 && service.polls <= DeadlineSeconds(answered.value, now)
                 && service.closes == (if service.inactive then 0 else 1)
                 && (exit.status == 0 ==> service.inactive || service.acknowledged)
            else exit.status == 1 && service.polls == 0 && service.closes == 0
  {
    last := 0;
    if !bootstrap.Response? { return Exit(1, if stopRequested then Interrupted else ActivationRejected), 0; }
    if stopRequested || !requestValid { return Exit(1, Interrupted), 0; }
    var reply := service.StartSession();
    match reply {
      case Response(_) =>
      case RemoteFailure => return Exit(1, ActivationRejected), 0;
      case TimedOut =>
        reply := service.StartSession();
        if !reply.Response? { return Exit(1, ReplyLost), 0; }
    }
    exit, last := PollUntilClosed(service, start, DeadlineSeconds(reply.value, now));
  }
}
