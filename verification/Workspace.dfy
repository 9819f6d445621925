/** The console and its organization client over one session authority, as the program builds them.

    The panel awaits a switch of the client and hands the session it returns to the console, some time later. */
module Workspace {
  import opened Common
  import opened ConsoleSession
  import A = SessionAuthority
  import C = Console
  import K = OrganizationClient

  /** `told` are the switches whose session the console has been handed. */
  datatype State = State(console: C.State, client: K.State, told: set<nat>)

  datatype Event = OfConsole(console: C.Event) | OfClient(client: K.Event) | Tell(call: nat)

  function Initial(): State { State(C.Initial(), K.Fresh(true), {}) }

  function WithConsole(s: State, console: C.State): State {
    s.(console := console, client := s.client.(authority := console.authority))
  }

  function WithClient(s: State, client: K.State): State {
    s.(client := client, console := s.console.(authority := client.authority))
  }

  /** Call `c` has returned this session. */
  predicate ReturnedBy(client: K.State, c: nat, x: Session) {
    c < |client.calls| && client.calls[c].phase.Done? && client.calls[c].phase.result == K.Returned(x)
  }

  /** The console hears of a switch only from the panel. */
  function Step(s: State, e: Event): State {
    match e
    case OfConsole(event) => if event.OrganizationSwitched? then s else WithConsole(s, C.Step(s.console, event))
    case OfClient(event) => WithClient(s, K.Step(s.client, event))
    case Tell(c) =>
      if c < |s.client.calls| && s.client.calls[c].phase.Done? && s.client.calls[c].phase.result.Returned? && c !in s.told
      then WithConsole(s, C.Step(s.console, C.OrganizationSwitched(s.client.calls[c].phase.result.session)))
             .(told := s.told + {c})
      else s
  }

  function Run(s: State, es: seq<Event>): State
    decreases |es|
  {
    if es == [] then s else Run(Step(s, es[0]), es[1..])
  }

  /** The tenant the console switched to is one that a call returned. */
  ghost predicate FenceBound(s: State) {
    s.console.fence.kind.SwitchedTo? ==> exists c :: c in s.told && ReturnedBy(s.client, c, s.console.fence.kind.session)
  }

  ghost predicate Inv(s: State) {
    && C.Inv(s.console) && K.Inv(s.client) && s.client.provided && s.client.authority == s.console.authority
    && FenceBound(s)
  }

  lemma ConsoleKeeps(s: State, event: C.Event)
    requires Inv(s)
    ensures C.Inv(C.Step(s.console, event)) && K.Inv(s.client.(authority := C.Step(s.console, event).authority))
  {
    C.StepKeeps(s.console, event);
    K.AuthorityChanged(s.client, C.Step(s.console, event).authority);
  }

  lemma ClientKeeps(s: State, event: K.Event)
    requires Inv(s)
    ensures Inv(WithClient(s, K.Step(s.client, event)))
  {
    hide C.Inv, K.Inv, K.Step, A.Run, K.Asked;
    K.StepKeeps(s.client, event);
    K.AskedExactly(s.client, event);
    C.OthersKeep(s.console, K.Asked(s.client, event));
    if s.console.fence.kind.SwitchedTo? {
      var x := s.console.fence.kind.session;
      var c :| c in s.told && ReturnedBy(s.client, c, x);
      K.DoneStays(s.client, event, c);
      assert ReturnedBy(K.Step(s.client, event), c, x);
    }
  }

  lemma FenceKept(console: C.State, event: C.Event)
    requires !event.OrganizationSwitched?
    ensures C.Step(console, event).fence.kind.SwitchedTo? ==> C.Step(console, event).fence == console.fence
  {
    hide A.Step, A.GetStep, A.ClearStep, A.ReplaceStep;
  }

  lemma FenceSet(console: C.State, x: Session)
    ensures C.Step(console, C.OrganizationSwitched(x)).fence.kind == C.SwitchedTo(x)
  {
    hide A.GetStep, A.ReplaceStep;
  }

  lemma StepKeeps(s: State, e: Event)
    requires Inv(s)
    ensures Inv(Step(s, e))
  {
    hide C.Inv, K.Inv, C.Step, K.Step;
    match e
    case OfClient(event) => ClientKeeps(s, event);
    case OfConsole(event) =>
      if !event.OrganizationSwitched? {
        ConsoleKeeps(s, event);
        FenceKept(s.console, event);
        var t := Step(s, e);
        if t.console.fence.kind.SwitchedTo? {
          var c :| c in s.told && ReturnedBy(s.client, c, s.console.fence.kind.session);
          assert ReturnedBy(t.client, c, t.console.fence.kind.session);
        }
      }
    case Tell(c) =>
      var t := Step(s, e);
      if t != s {
        var x := s.client.calls[c].phase.result.session;
        ConsoleKeeps(s, C.OrganizationSwitched(x));
        FenceSet(s.console, x);
        assert ReturnedBy(t.client, c, x);
      }
  }

  lemma {:induction false} RunKeeps(s: State, es: seq<Event>)
    requires Inv(s)
    ensures Inv(Run(s, es))
    decreases |es|
  {
    hide Inv, Step;
    if es != [] {
      StepKeeps(s, es[0]);
      RunKeeps(Step(s, es[0]), es[1..]);
    }
  }

  lemma InitialInv() ensures Inv(Initial()) {}

  /** In every run of console, client and authority together: data on display comes from a refresh that started after the
      latest switch or session end and is of the organization of the session that refresh read. A tenant the console
      switched to was asked for by a call of the client, and until something is invalidated the display shows that
      organization and no other. */
  lemma DisplayIsTheTenantAskedFor(es: seq<Event>)
    ensures var s := Run(Initial(), es);
      s.console.data.Some? ==>
        var d := s.console.data.value;
        && d.refresh < |s.console.refreshes| && s.console.refreshes[d.refresh].epoch > s.console.fence.epoch
        && d.organization == d.session.organization
        && (s.console.fence.kind.SwitchedTo? ==>
              exists c :: c in s.told && ReturnedBy(s.client, c, s.console.fence.kind.session)
                && s.console.fence.kind.session.organization == s.client.calls[c].organization
                && (s.console.refreshes[d.refresh].generation == s.console.fence.generation ==>
                      d.organization == s.client.calls[c].organization))
  {
    InitialInv();
    RunKeeps(Initial(), es);
    var s := Run(Initial(), es);
    if s.console.data.Some? && s.console.fence.kind.SwitchedTo? {
      var c :| c in s.told && ReturnedBy(s.client, c, s.console.fence.kind.session);
      assert K.CallInv(c, s.client.calls[c]);
      assert C.ShownInv(s.console, s.console.data.value);
    }
  }

  /** A sign-out during a switch empties authority and display; the switch's reply fills the authority again, and once
      the console is told, its refresh fills the display. */
  lemma SignOutUndoneOnDisplay(s: State, c: nat)
    requires Inv(s) && c + 1 == |s.client.calls| && s.client.calls[c].phase.Posting? && c !in s.told
    requires s.console.inFlight.None?
    ensures var organization, member := s.client.calls[c].organization, s.client.calls[c].phase.context.member;
      var x := Session(s.client.nextRef, organization, member);
      var r := |s.console.refreshes|;
      var out := Step(s, OfConsole(C.EndSession));
      var back := Step(Step(out, OfClient(K.Replied(c, K.Payload(true, true, organization, member)))), Tell(c));
      var end := Step(Step(back, OfConsole(C.SessionReady(r, false))), OfConsole(C.FetchDone(r, C.Summary(organization))));
      && out.console.data == None && out.console.authority.value == None
      && back.console.authority.value == Some(x)
      && end.console.data == Some(C.Shown(r, x, organization))
  {
    var organization, member := s.client.calls[c].organization, s.client.calls[c].phase.context.member;
    var x := Session(s.client.nextRef, organization, member);
    var r := |s.console.refreshes|;
    var out := Step(s, OfConsole(C.EndSession));
    StepKeeps(s, OfConsole(C.EndSession));
    var answered := Step(out, OfClient(K.Replied(c, K.Payload(true, true, organization, member))));
    BoundReply(out.client, c);
    assert answered.console.inFlight.None? && |answered.console.refreshes| == r;
    SwitchShows(answered.console, x);
    var back := Step(answered, Tell(c));
    assert back.console == C.Step(answered.console, C.OrganizationSwitched(x));
    hide C.Step, K.Step;
    assert Step(back, OfConsole(C.SessionReady(r, false))).console == C.Step(back.console, C.SessionReady(r, false));
  }

  lemma BoundReply(client: K.State, c: nat)
    requires K.Inv(client) && client.provided && c + 1 == |client.calls| && client.calls[c].phase.Posting?
    ensures var organization, member := client.calls[c].organization, client.calls[c].phase.context.member;
      var t := K.Step(client, K.Replied(c, K.Payload(true, true, organization, member)));
      ReturnedBy(t, c, Session(client.nextRef, organization, member)) && t.provided
      && t.authority.value == Some(Session(client.nextRef, organization, member))
  {
    assert K.CallInv(c, client.calls[c]);
  }

  lemma SwitchShows(console: C.State, x: Session)
    requires console.inFlight.None?
    ensures var r := |console.refreshes|;
      var switched := C.Step(console, C.OrganizationSwitched(x));
      && switched.authority.value == Some(x)
      && C.Step(C.Step(switched, C.SessionReady(r, false)), C.FetchDone(r, C.Summary(x.organization))).data
         == Some(C.Shown(r, x, x.organization))
  {
    var r := |console.refreshes|;
    C.SwitchThenShows(console, x);
    C.RunThree(console, C.OrganizationSwitched(x), C.SessionReady(r, false), C.FetchDone(r, C.Summary(x.organization)));
  }
}
