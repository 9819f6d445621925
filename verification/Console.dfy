/** The console's summary: refreshes, tenant switches and session ends, running over the shared session authority.

    Each stretch of code between two awaits is one atomic step, and the authority's own steps (other getters, loads,
    deliveries, clears and replacements by anybody) may come between any two of them. */
module Console {
  import opened Common
  import opened ConsoleSession
  import A = SessionAuthority

  datatype Phase =
    | AwaitSession(waiter: nat)
    | Fetching(session: Session)
    | Finished

  /** One run of the refresh: its epoch, the authority's generation when it asked for the session, and where it is. */
  datatype Refresh = Refresh(epoch: nat, generation: nat, phase: Phase)

  /** Summary data on display: the refresh it came from, the session that refresh read, and its organization. */
  datatype Shown = Shown(refresh: nat, session: Session, organization: Id)

  datatype FenceKind = Start | Ended | SwitchedTo(session: Session)

  /** The latest tenant switch or session end. */
  datatype Fence = Fence(kind: FenceKind, epoch: nat, generation: nat)

  datatype State = State(
    authority: A.State<Session>, epoch: nat, inFlight: Option<nat>, organization: Option<Id>, data: Option<Shown>,
    refreshes: seq<Refresh>, fence: Fence)

  /** How the requests of a refresh ended: a summary of some organization, an abort, or any other failure; `expired`
      says that the failure ends the session. */
  datatype Fetched = Summary(organization: Id) | FetchAborted | FetchFailed(expired: bool)

  datatype Event =
    | RefreshSummary(signal: bool, aborted: bool, recent: bool)
    | SessionReady(refresh: nat, expired: bool)
    | FetchDone(refresh: nat, fetched: Fetched)
    | Settled(refresh: nat)
    | EndSession
    | OrganizationSwitched(session: Session)
    | Other(event: A.Event<Session>)

  function Initial(): State { State(A.Empty(), 0, None, None, None, [], Fence(Start, 0, 0)) }

  /** `refreshSummary`: joins the refresh in flight, or starts one. */
  function StartRefresh(s: State, signal: bool, aborted: bool, recent: bool): State {
    if s.inFlight.Some? then s
    else if signal && recent
    then s.(inFlight := Some(|s.refreshes|), refreshes := s.refreshes + [Refresh(0, 0, Finished)])
    else
      var gone := signal && aborted;
      s.(epoch := s.epoch + 1, authority := A.GetStep(s.authority, gone, signal),
         inFlight := Some(|s.refreshes|),
         refreshes := s.refreshes +
           [Refresh(s.epoch + 1, s.authority.generation,
                    if gone then Finished else AwaitSession(|s.authority.waiters|))])
  }

  function WithPhase(s: State, r: nat, phase: Phase): State
    requires r < |s.refreshes|
  {
    s.(refreshes := s.refreshes[r := s.refreshes[r].(phase := phase)])
  }

  /** The handler of a failure that is not an abort. */
  function Fail(s: State, r: nat, expired: bool): State
    requires r < |s.refreshes|
  {
    var t := WithPhase(s, r, Finished);
    if s.refreshes[r].epoch != s.epoch then t
    else t.(organization := None, data := None, authority := if expired then A.ClearStep(t.authority, None) else t.authority)
  }

  function ContinueWithSession(s: State, r: nat, expired: bool): State {
    if r >= |s.refreshes| || !s.refreshes[r].phase.AwaitSession? || s.refreshes[r].phase.waiter >= |s.authority.waiters|
    then s
    else match s.authority.waiters[s.refreshes[r].phase.waiter].status
      case Waiting => s
      case Received(x) => WithPhase(s, r, Fetching(x))
      case Rejected => Fail(s, r, expired)
      case Aborted => WithPhase(s, r, Finished)
  }

  /** A summary of another organization than the session's is a failure like any other. */
  function ContinueWithFetch(s: State, r: nat, fetched: Fetched): State {
    if r >= |s.refreshes| || !s.refreshes[r].phase.Fetching? then s
    else
      var x := s.refreshes[r].phase.session;
      match fetched
      case FetchAborted => WithPhase(s, r, Finished)
      case FetchFailed(expired) => Fail(s, r, expired)
      case Summary(organization) =>
        if organization != x.organization then Fail(s, r, false)
        else if s.refreshes[r].epoch != s.epoch then WithPhase(s, r, Finished)
        else WithPhase(s, r, Finished).(organization := Some(organization), data := Some(Shown(r, x, organization)))
  }

  function Forget(s: State, r: nat): State {
    if r < |s.refreshes| && s.refreshes[r].phase.Finished? && s.inFlight == Some(r) then s.(inFlight := None) else s
  }

  function End(s: State): State {
    var authority := A.ClearStep(s.authority, None);
    s.(epoch := s.epoch + 1, authority := authority, organization := None, data := None,
       fence := Fence(Ended, s.epoch + 1, authority.generation))
  }

  function Switch(s: State, x: Session): State {
    var authority := A.ReplaceStep(s.authority, x);
    StartRefresh(
      s.(epoch := s.epoch + 1, data := None, authority := authority,
         fence := Fence(SwitchedTo(x), s.epoch + 1, authority.generation)),
      false, false, false)
  }

  function Step(s: State, e: Event): State {
    match e
    case RefreshSummary(signal, aborted, recent) => StartRefresh(s, signal, aborted, recent)
    case SessionReady(r, expired) => ContinueWithSession(s, r, expired)
    case FetchDone(r, fetched) => ContinueWithFetch(s, r, fetched)
    case Settled(r) => Forget(s, r)
    case EndSession => End(s)
    case OrganizationSwitched(x) => Switch(s, x)
    case Other(event) => s.(authority := A.Step(s.authority, event))
  }

  function Run(s: State, events: seq<Event>): State
    decreases |events|
  {
    if events == [] then s else Run(Step(s, events[0]), events[1..])
  }

  // What every step keeps.

  /** While the generation is that of the latest switch, the authority still holds the session switched to. */
  ghost predicate FenceInv(s: State) {
    && s.fence.epoch <= s.epoch && s.fence.generation <= s.authority.generation
    && (s.fence.kind.SwitchedTo? && s.authority.generation == s.fence.generation ==>
          s.authority.value == Some(s.fence.kind.session))
  }

  /** A refresh that started after the latest fence asked the authority after it, and if nothing was invalidated since,
      it waits for or has read the session switched to. */
  ghost predicate RefreshInv(s: State, r: Refresh) {
    && r.epoch <= s.epoch && r.generation <= s.authority.generation
    && (!r.phase.Finished? ==> r.epoch != s.fence.epoch)
    && (r.phase.AwaitSession? ==> r.phase.waiter < |s.authority.waiters|)
    && (!r.phase.Finished? && r.epoch > s.fence.epoch ==>
          && r.generation >= s.fence.generation
          && (s.fence.kind.SwitchedTo? && r.generation == s.fence.generation ==>
                && (r.phase.AwaitSession? ==>
                      s.authority.waiters[r.phase.waiter].status == A.Received(s.fence.kind.session))
                && (r.phase.Fetching? ==> r.phase.session == s.fence.kind.session)))
  }

  ghost predicate ShownInv(s: State, d: Shown) {
    && d.refresh < |s.refreshes| && s.refreshes[d.refresh].epoch > s.fence.epoch
    && s.refreshes[d.refresh].generation >= s.fence.generation
    && d.organization == d.session.organization
    && (s.fence.kind.SwitchedTo? && s.refreshes[d.refresh].generation == s.fence.generation ==>
          d.session == s.fence.kind.session)
  }

  ghost predicate Inv(s: State) {
    && A.Inv(s.authority) && FenceInv(s)
    && (forall r :: 0 <= r < |s.refreshes| ==> RefreshInv(s, s.refreshes[r]))
    && (s.data.Some? ==> ShownInv(s, s.data.value))
  }

  /** The authority only moves on: getters that received a session keep it, and a value stays for its generation. */
  ghost predicate Later(a: A.State<Session>, b: A.State<Session>) {
    && a.generation <= b.generation && |a.waiters| <= |b.waiters|
    && (forall w :: 0 <= w < |a.waiters| && a.waiters[w].status.Received? ==> b.waiters[w] == a.waiters[w])
    && (a.generation == b.generation && a.value.Some? ==> b.value == a.value)
  }

  lemma AuthorityMovesOn(a: A.State<Session>, e: A.Event<Session>)
    requires A.Inv(a)
    ensures A.Inv(A.Step(a, e)) && Later(a, A.Step(a, e))
  {
    A.StepKeeps(a, e);
  }

  lemma OtherKeeps(s: State, e: A.Event<Session>)
    requires Inv(s)
    ensures Inv(s.(authority := A.Step(s.authority, e)))
  {
    hide A.Inv, A.Step;
    AuthorityMovesOn(s.authority, e);
    var t := s.(authority := A.Step(s.authority, e));
    forall r | 0 <= r < |t.refreshes| ensures RefreshInv(t, t.refreshes[r]) { assert RefreshInv(s, s.refreshes[r]); }
  }

  lemma {:induction false} OthersKeep(s: State, es: seq<A.Event<Session>>)
    requires Inv(s)
    ensures Inv(s.(authority := A.Run(s.authority, es)))
    decreases |es|
  {
    hide Inv, A.Step;
    if es == [] {
      assert s.(authority := A.Run(s.authority, es)) == s;
    } else {
      OtherKeeps(s, es[0]);
      OthersKeep(s.(authority := A.Step(s.authority, es[0])), es[1..]);
    }
  }

  lemma StartKeeps(s: State, signal: bool, aborted: bool, recent: bool)
    requires Inv(s)
    ensures Inv(StartRefresh(s, signal, aborted, recent))
  {
    hide A.Inv;
    var t := StartRefresh(s, signal, aborted, recent);
    AuthorityMovesOn(s.authority, A.Get(signal && aborted, signal));
    forall r | 0 <= r < |t.refreshes| ensures RefreshInv(t, t.refreshes[r]) {
      if r < |s.refreshes| { assert RefreshInv(s, s.refreshes[r]); }
    }
  }

  lemma FinishKeeps(s: State, r: nat)
    requires Inv(s) && r < |s.refreshes|
    ensures Inv(WithPhase(s, r, Finished))
  {
    hide A.Inv;
    var t := WithPhase(s, r, Finished);
    forall k | 0 <= k < |t.refreshes| ensures RefreshInv(t, t.refreshes[k]) { assert RefreshInv(s, s.refreshes[k]); }
  }

  lemma FailKeeps(s: State, r: nat, expired: bool)
    requires Inv(s) && r < |s.refreshes|
    ensures Inv(Fail(s, r, expired))
  {
    hide A.Inv;
    FinishKeeps(s, r);
    OtherKeeps(WithPhase(s, r, Finished), A.Clear(None));
    var t := Fail(s, r, expired);
    var u := if expired then WithPhase(s, r, Finished).(authority := A.Step(s.authority, A.Clear(None)))
             else WithPhase(s, r, Finished);
    forall k | 0 <= k < |t.refreshes| ensures RefreshInv(t, t.refreshes[k]) {
      assert RefreshInv(u, u.refreshes[k]) && RefreshInv(WithPhase(s, r, Finished), u.refreshes[k]);
    }
  }

  lemma SessionKeeps(s: State, r: nat, expired: bool)
    requires Inv(s)
    ensures Inv(ContinueWithSession(s, r, expired))
  {
    hide A.Inv;
    if r < |s.refreshes| {
      FailKeeps(s, r, expired);
      FinishKeeps(s, r);
      assert RefreshInv(s, s.refreshes[r]);
      if s.refreshes[r].phase.AwaitSession? && s.authority.waiters[s.refreshes[r].phase.waiter].status.Received? {
        var t := ContinueWithSession(s, r, expired);
        forall k | 0 <= k < |t.refreshes| ensures RefreshInv(t, t.refreshes[k]) { assert RefreshInv(s, s.refreshes[k]); }
      }
    }
  }

  lemma FetchKeeps(s: State, r: nat, fetched: Fetched)
    requires Inv(s)
    ensures Inv(ContinueWithFetch(s, r, fetched))
  {
    hide A.Inv;
    if r < |s.refreshes| {
      FailKeeps(s, r, fetched.FetchFailed? && fetched.expired);
      FailKeeps(s, r, false);
      FinishKeeps(s, r);
      assert RefreshInv(s, s.refreshes[r]);
      var t := ContinueWithFetch(s, r, fetched);
      var u := WithPhase(s, r, Finished);
      if t == u.(organization := t.organization, data := t.data) {
        forall k | 0 <= k < |t.refreshes| ensures RefreshInv(t, t.refreshes[k]) { assert RefreshInv(u, u.refreshes[k]); }
      }
    }
  }

  /** A fence raised now lies after every refresh so far. */
  lemma FenceKeeps(s: State, kind: FenceKind, e: A.Event<Session>, organization: Option<Id>)
    requires Inv(s) && (e == A.Clear(None) || e.Replace?)
    requires kind.SwitchedTo? ==> e == A.Replace(kind.session)
    ensures var a := A.Step(s.authority, e);
            Inv(s.(epoch := s.epoch + 1, authority := a, organization := organization, data := None,
                   fence := Fence(kind, s.epoch + 1, a.generation)))
  {
    hide A.Inv;
    AuthorityMovesOn(s.authority, e);
    forall k | 0 <= k < |s.refreshes| ensures RefreshInv(s, s.refreshes[k]) {}
  }

  lemma StepKeeps(s: State, e: Event)
    requires Inv(s)
    ensures Inv(Step(s, e))
  {
    hide A.Inv, RefreshInv, ShownInv, FenceInv;
    match e
    case RefreshSummary(signal, aborted, recent) => StartKeeps(s, signal, aborted, recent);
    case SessionReady(r, expired) => SessionKeeps(s, r, expired);
    case FetchDone(r, fetched) => FetchKeeps(s, r, fetched);
    case Settled(r) => ForgetKeeps(s, r);
    case EndSession => FenceKeeps(s, Ended, A.Clear(None), None);
    case OrganizationSwitched(x) =>
      FenceKeeps(s, SwitchedTo(x), A.Replace(x), s.organization);
      var a := A.ReplaceStep(s.authority, x);
      StartKeeps(s.(epoch := s.epoch + 1, data := None, authority := a,
                    fence := Fence(SwitchedTo(x), s.epoch + 1, a.generation)), false, false, false);
    case Other(event) => OtherKeeps(s, event);
  }

  lemma ForgetKeeps(s: State, r: nat)
    requires Inv(s)
    ensures Inv(Forget(s, r))
  {
    hide A.Inv;
    var t := Forget(s, r);
    forall k | 0 <= k < |t.refreshes| ensures RefreshInv(t, t.refreshes[k]) { assert RefreshInv(s, s.refreshes[k]); }
  }

  lemma {:induction false} RunKeeps(s: State, events: seq<Event>)
    requires Inv(s)
    ensures Inv(Run(s, events))
    decreases |events|
  {
    hide Inv, Step;
    if events != [] {
      StepKeeps(s, events[0]);
      RunKeeps(Step(s, events[0]), events[1..]);
    }
  }

  /** In every reachable state, summary data on display comes from a refresh that started, and asked for the session,
      after the latest tenant switch or session end; it is a summary of the organization of the session that refresh
      read; and if nothing was invalidated between that switch and the refresh, that session is the one switched to. */
  lemma DisplayIsFenced(events: seq<Event>)
    ensures var s := Run(Initial(), events);
      s.data.Some? ==>
        var d := s.data.value;
        && d.refresh < |s.refreshes|
        && s.refreshes[d.refresh].epoch > s.fence.epoch
        && s.refreshes[d.refresh].generation >= s.fence.generation
        && d.organization == d.session.organization
        && (s.fence.kind.SwitchedTo? && s.refreshes[d.refresh].generation == s.fence.generation ==>
              d.session == s.fence.kind.session)
  {
    RunKeeps(Initial(), events);
  }

  // No progress.

  predicate StartsRefresh(e: Event) { e.RefreshSummary? || e.OrganizationSwitched? }

  /** A switch starts a refresh exactly when none is in flight; one in flight is left running and is already stale. */
  lemma SwitchMayStartNothing(s: State, x: Session)
    requires Inv(s)
    ensures |Switch(s, x).refreshes| == |s.refreshes| + (if s.inFlight.None? then 1 else 0)
    ensures s.inFlight.Some? ==> AllStale(Switch(s, x)) && Switch(s, x).data == None
  {
    forall r | 0 <= r < |s.refreshes| ensures s.refreshes[r].epoch <= s.epoch { assert RefreshInv(s, s.refreshes[r]); }
  }

  lemma RunThree(s: State, a: Event, b: Event, c: Event)
    ensures Run(s, [a, b, c]) == Step(Step(Step(s, a), b), c)
  {
    hide Step;
    assert [a, b, c][1..] == [b, c] && [b, c][1..] == [c];
    assert Run(Step(Step(s, a), b), [c]) == Step(Step(Step(s, a), b), c);
  }

  /** With nothing in flight a switch starts the refresh that goes on to show the new tenant. */
  lemma SwitchThenShows(s: State, x: Session)
    requires s.inFlight.None?
    ensures var r := |s.refreshes|;
      var t := Run(s, [OrganizationSwitched(x), SessionReady(r, false), FetchDone(r, Summary(x.organization))]);
      t.data == Some(Shown(r, x, x.organization)) && t.organization == Some(x.organization)
  {
    hide Run;
    var r := |s.refreshes|;
    RunThree(s, OrganizationSwitched(x), SessionReady(r, false), FetchDone(r, Summary(x.organization)));
    var t := Step(Step(s, OrganizationSwitched(x)), SessionReady(r, false));
    assert t.refreshes[r].phase == Fetching(x) && t.refreshes[r].epoch == t.epoch;
  }

  /** Every refresh still running is from an earlier epoch. */
  ghost predicate AllStale(s: State) {
    forall r :: 0 <= r < |s.refreshes| && !s.refreshes[r].phase.Finished? ==> s.refreshes[r].epoch < s.epoch
  }

  /** After such a switch the display stays empty until somebody asks for another refresh, however the refresh that was
      in flight ends. */
  lemma {:induction false} DisplayStaysEmpty(s: State, events: seq<Event>)
    requires AllStale(s) && s.data == None
    requires forall k :: 0 <= k < |events| ==> !StartsRefresh(events[k])
    ensures Run(s, events).data == None
    decreases |events|
  {
    if events != [] {
      var t := Step(s, events[0]);
      StaleStep(s, events[0]);
      hide Step;
      DisplayStaysEmpty(t, events[1..]);
    }
  }

  lemma StaleStep(s: State, e: Event)
    requires AllStale(s) && s.data == None && !StartsRefresh(e)
    ensures AllStale(Step(s, e)) && Step(s, e).data == None
  {}

  // What each step does.

  /** The failures of a refresh: anything but an abort, a summary of another organization than the session's included. */
  predicate Fails(fetched: Fetched, x: Session) {
    fetched.FetchFailed? || (fetched.Summary? && fetched.organization != x.organization)
  }

  /** When the requests of a refresh are done, in its own epoch a summary of the session's organization is shown, a failure
      empties the display and the organization, and one that ends the session empties the authority too; an abort, and
      anything from an older epoch, changes nothing on display. */
  lemma FetchExactly(s: State, r: nat, fetched: Fetched)
    requires r < |s.refreshes| && s.refreshes[r].phase.Fetching?
    ensures var t := Step(s, FetchDone(r, fetched));
      var x := s.refreshes[r].phase.session;
      && t.refreshes[r].phase == Finished && t.epoch == s.epoch
      && (if fetched.FetchAborted? || s.refreshes[r].epoch != s.epoch then
            t.data == s.data && t.organization == s.organization && t.authority == s.authority
          else if Fails(fetched, x) then
            && t.data == None && t.organization == None
            && (fetched == FetchFailed(true) ==> t.authority.value == None)
            && (fetched != FetchFailed(true) ==> t.authority == s.authority)
          else
            && t.data == Some(Shown(r, x, x.organization)) && t.organization == Some(x.organization)
            && t.authority == s.authority)
  {}

  /** A refresh reads the session it is given; refused, in its own epoch, it empties the display; aborted, it just ends. */
  lemma SessionExactly(s: State, r: nat, expired: bool)
    requires r < |s.refreshes| && s.refreshes[r].phase.AwaitSession?
    requires s.refreshes[r].phase.waiter < |s.authority.waiters|
    ensures var t := Step(s, SessionReady(r, expired));
      match s.authority.waiters[s.refreshes[r].phase.waiter].status
      case Waiting => t == s
      case Received(x) => t.refreshes[r].phase == Fetching(x) && t.data == s.data
      case Aborted => t.refreshes[r].phase == Finished && t.data == s.data
      case Rejected =>
        && t.refreshes[r].phase == Finished
        && (s.refreshes[r].epoch == s.epoch ==>
              t.data == None && t.organization == None && (expired ==> t.authority.value == None))
        && (s.refreshes[r].epoch != s.epoch ==> t.data == s.data && t.organization == s.organization)
  {}

  /** A finished refresh frees the slot, so that the next one asked for starts: in a new epoch, with a getter of its own,
      unless a recent success makes it end at once. */
  lemma FinishedRefreshFrees(s: State, r: nat, signal: bool, recent: bool)
    requires r < |s.refreshes| && s.refreshes[r].phase.Finished? && s.inFlight == Some(r)
    ensures var freed := Step(s, Settled(r));
      var t := Step(freed, RefreshSummary(signal, false, recent));
      var n := |s.refreshes|;
      && freed.inFlight == None && |t.refreshes| == n + 1 && t.inFlight == Some(n) && t.data == s.data
      && (if signal && recent then t.refreshes[n].phase == Finished && t.epoch == s.epoch
          else && t.epoch == s.epoch + 1 && t.refreshes[n].epoch == t.epoch
               && t.refreshes[n].phase == AwaitSession(|s.authority.waiters|)
               && |t.authority.waiters| == |s.authority.waiters| + 1)
  {}

  /** A refresh that is not finished, or not the one in flight, frees nothing. */
  lemma OthersFreeNothing(s: State, r: nat)
    requires r >= |s.refreshes| || !s.refreshes[r].phase.Finished? || s.inFlight != Some(r)
    ensures Step(s, Settled(r)) == s
  {}

  /** The end of a session empties authority, organization and display, in a new epoch. */
  lemma EndExactly(s: State)
    ensures var t := Step(s, Event.EndSession);
      && t.data == None && t.organization == None && t.authority.value == None && t.authority.pending == None
      && t.epoch == s.epoch + 1 && t.refreshes == s.refreshes && t.inFlight == s.inFlight
  {}

  /** The refs and state of the component. Each method is the code between two awaits. */
  class AgentPassConsole {
    var authority: A.State<Session>
    var summaryEpoch: nat
    var summaryInFlight: Option<nat>
    var organizationId: Option<Id>
    var data: Option<Shown>
    var refreshes: seq<Refresh>
    ghost var fence: Fence

    ghost function View(): State reads this {
      State(authority, summaryEpoch, summaryInFlight, organizationId, data, refreshes, fence)
    }

    constructor ()
      ensures View() == Initial() && Inv(View())
    {
      authority, summaryEpoch, summaryInFlight, organizationId := A.Empty(), 0, None, None;
      data, refreshes, fence := None, [], Fence(Start, 0, 0);
    }

    method RefreshSummary(signal: bool, aborted: bool, recent: bool)
      requires Inv(View())
      modifies this
      ensures View() == Step(old(View()), Event.RefreshSummary(signal, aborted, recent)) && Inv(View())
    {
      StartKeeps(View(), signal, aborted, recent);
      RefreshUnlessInFlight(signal, aborted, recent);
    }

    method RefreshUnlessInFlight(signal: bool, aborted: bool, recent: bool)
      modifies this
      ensures View() == StartRefresh(old(View()), signal, aborted, recent)
    {
      if summaryInFlight.Some? { return; }
      summaryInFlight := Some(|refreshes|);
      if signal && recent {
        refreshes := refreshes + [Refresh(0, 0, Finished)];
        return;
      }
      summaryEpoch := summaryEpoch + 1;
      var gone := signal && aborted;
      var phase := if gone then Finished else AwaitSession(|authority.waiters|);
      refreshes := refreshes + [Refresh(summaryEpoch, authority.generation, phase)];
      authority := A.GetStep(authority, gone, signal);
    }

    /** The continuation of a refresh once its requests have been answered. */
    method SummaryFetched(r: nat, fetched: Fetched)
      requires Inv(View()) && r < |refreshes| && refreshes[r].phase.Fetching?
      modifies this
      ensures View() == Step(old(View()), FetchDone(r, fetched)) && Inv(View())
    {
      FetchKeeps(View(), r, fetched);
      var session, epoch := refreshes[r].phase.session, refreshes[r].epoch;
      refreshes := refreshes[r := refreshes[r].(phase := Finished)];
      if fetched.FetchAborted? { return; }
      if epoch != summaryEpoch { return; }
      if fetched.Summary? && fetched.organization == session.organization {
        organizationId := Some(fetched.organization);
        data := Some(Shown(r, session, fetched.organization));
        return;
      }
      organizationId := None;
      if fetched.FetchFailed? && fetched.expired { authority := A.ClearStep(authority, None); }
      data := None;
    }

    method EndSession()
      requires Inv(View())
      modifies this
      ensures View() == Step(old(View()), Event.EndSession) && Inv(View())
    {
      StepKeeps(View(), Event.EndSession);
      summaryEpoch := summaryEpoch + 1;
      authority := A.ClearStep(authority, None);
      organizationId := None;
      data := None;
      fence := Fence(Ended, summaryEpoch, authority.generation);
    }

    method HandleOrganizationSwitched(session: Session)
      requires Inv(View())
      modifies this
      ensures View() == Step(old(View()), OrganizationSwitched(session)) && Inv(View())
    {
      StepKeeps(View(), OrganizationSwitched(session));
      summaryEpoch := summaryEpoch + 1;
      data := None;
      authority := A.ReplaceStep(authority, session);
      fence := Fence(SwitchedTo(session), summaryEpoch, authority.generation);
      RefreshUnlessInFlight(false, false, false);
    }
  }
}
