/** The capability records that the console lays over its summary: an effect that runs after a render commits, with its
    own epoch, and writes when its requests arrive. The admin activities follow the same pattern. */
module ConsoleOverlay {
  import opened Common
  import opened ConsoleSession
  import A = SessionAuthority
  import C = Console

  /** One run of the effect: its epoch, the summary epoch when it began, its getter, and whether its cleanup has run. */
  datatype Overlay = Overlay(epoch: nat, begun: nat, waiter: nat, aborted: bool, done: bool)

  /** Records on display: the run they come from and the organization of the session it read. */
  datatype Records = Records(overlay: nat, organization: Id)

  /** `uncommitted` says that no render has been committed since the latest tenant switch. */
  datatype State = State(console: C.State, epoch: nat, overlays: seq<Overlay>, records: Option<Records>, uncommitted: bool)

  datatype Event = OfConsole(console: C.Event) | Commit | Arrived(overlay: nat, ok: bool)

  function Initial(): State { State(C.Initial(), 0, [], None, false) }

  /** The console's steps that set its data as a whole, which drops the records. */
  predicate Resets(s: C.State, e: C.Event) {
    match e
    case EndSession => true
    case OrganizationSwitched(_) => true
    case FetchDone(r, fetched) =>
      r < |s.refreshes| && s.refreshes[r].phase.Fetching? && s.refreshes[r].epoch == s.epoch && !fetched.FetchAborted?
    case SessionReady(r, _) =>
      && r < |s.refreshes| && s.refreshes[r].phase.AwaitSession? && s.refreshes[r].phase.waiter < |s.authority.waiters|
      && s.refreshes[r].epoch == s.epoch && s.authority.waiters[s.refreshes[r].phase.waiter].status.Rejected?
    case _ => false
  }

  function AbortLatest(overlays: seq<Overlay>): seq<Overlay> {
    if overlays == [] then [] else overlays[|overlays| - 1 := overlays[|overlays| - 1].(aborted := true)]
  }

  /** A commit cleans up the effect's last run and, with a summary on display, runs it again. */
  function Committed(s: State): State {
    var cleaned := s.(overlays := AbortLatest(s.overlays), uncommitted := false);
    if s.console.data.None? then cleaned
    else cleaned.(
      epoch := s.epoch + 1,
      console := C.Step(s.console, C.Other(A.Get(false, true))),
      overlays := cleaned.overlays + [Overlay(s.epoch + 1, s.console.epoch, |s.console.authority.waiters|, false, false)])
  }

  /** The run is still the current one. */
  predicate Live(s: State, o: nat) {
    o < |s.overlays| && !s.overlays[o].aborted && !s.overlays[o].done && s.overlays[o].epoch == s.epoch
  }

  /** The session that run `o` has read, if it has. */
  function Read(s: State, o: nat): Option<Session> {
    if o < |s.overlays| && s.overlays[o].waiter < |s.console.authority.waiters|
       && s.console.authority.waiters[s.overlays[o].waiter].status.Received?
    then Some(s.console.authority.waiters[s.overlays[o].waiter].status.value) else None
  }

  /** The guard of the write. */
  predicate Writes(s: State, o: nat, ok: bool) {
    Live(s, o) && ok && Read(s, o).Some? && s.console.organization == Some(Read(s, o).value.organization)
  }

  function Arrive(s: State, o: nat, ok: bool): State {
    if o >= |s.overlays| || s.overlays[o].done then s
    else
      var t := s.(overlays := s.overlays[o := s.overlays[o].(done := true)]);
      if Writes(s, o, ok) then t.(records := Some(Records(o, Read(s, o).value.organization)))
      else if Live(s, o) && !(ok && Read(s, o).Some?) then t.(records := None)
      else t
  }

  function Step(s: State, e: Event): State {
    match e
    case OfConsole(event) =>
      s.(console := C.Step(s.console, event), records := if Resets(s.console, event) then None else s.records,
         epoch := s.epoch + (if event.EndSession? then 1 else 0),
         uncommitted := s.uncommitted || event.OrganizationSwitched?)
    case Commit => Committed(s)
    case Arrived(o, ok) => Arrive(s, o, ok)
  }

  function Run(s: State, es: seq<Event>): State
    decreases |es|
  {
    if es == [] then s else Run(Step(s, es[0]), es[1..])
  }

  // What every step keeps.

  /** Whatever is on display is of the organization the console holds. */
  ghost predicate SameTenant(s: State) {
    && (s.console.data.Some? ==> s.console.organization == Some(s.console.data.value.organization))
    && (s.records.Some? ==> s.console.organization == Some(s.records.value.organization))
  }

  /** A live run from before the latest switch or session end is one whose cleanup waits for the next commit. */
  ghost predicate OldRunsWait(s: State) {
    && (forall o :: 0 <= o < |s.overlays| ==> s.overlays[o].epoch <= s.epoch && s.overlays[o].begun <= s.console.epoch)
    && (forall o :: 0 <= o < |s.overlays| - 1 ==> s.overlays[o].epoch < s.epoch || s.overlays[o].aborted)
    && (forall o: nat :: Live(s, o) && s.overlays[o].begun <= s.console.fence.epoch ==> s.uncommitted)
  }

  ghost predicate Inv(s: State) { C.Inv(s.console) && SameTenant(s) && OldRunsWait(s) }

  /** The records come from a run that began after the latest switch or session end. */
  ghost predicate Fenced(s: State) {
    s.records.Some? ==>
      s.records.value.overlay < |s.overlays| && s.overlays[s.records.value.overlay].begun > s.console.fence.epoch
  }

  /** A step of the console that leaves the records leaves organization and fence; one that shows data resets. */
  lemma ConsoleMoves(s: C.State, e: C.Event)
    requires s.data.Some? ==> s.organization == Some(s.data.value.organization)
    ensures var t := C.Step(s, e);
      && (t.data.Some? ==> t.organization == Some(t.data.value.organization))
      && (!Resets(s, e) ==> t.organization == s.organization && t.fence == s.fence)
      && (t.fence != s.fence ==> e.EndSession? || e.OrganizationSwitched?) && t.epoch >= s.epoch
  {
    hide A.Step, A.GetStep, A.ClearStep, A.ReplaceStep;
  }

  lemma ConsoleKeeps(s: State, event: C.Event)
    requires Inv(s)
    ensures Inv(Step(s, OfConsole(event)))
    ensures Fenced(s) ==> Fenced(Step(s, OfConsole(event)))
  {
    hide C.Inv, C.Step, Resets;
    C.StepKeeps(s.console, event);
    ConsoleMoves(s.console, event);
    var t := Step(s, OfConsole(event));
    forall o: nat | Live(t, o) && t.overlays[o].begun <= t.console.fence.epoch ensures t.uncommitted {
      if t.console.fence == s.console.fence { assert Live(s, o) || event.EndSession?; }
    }
    if event.EndSession? || event.OrganizationSwitched? { assert Resets(s.console, event) by { ResetsOf(s.console, event); } }
  }

  lemma ResetsOf(s: C.State, e: C.Event)
    requires e.EndSession? || e.OrganizationSwitched?
    ensures Resets(s, e)
  {}

  /** Data on display is younger than the fence. */
  lemma ShownAfterFence(s: C.State)
    requires C.Inv(s) && s.data.Some?
    ensures s.epoch > s.fence.epoch
  {
    assert C.RefreshInv(s, s.refreshes[s.data.value.refresh]);
  }

  lemma CommitKeeps(s: State)
    requires Inv(s)
    ensures Inv(Committed(s)) && (Fenced(s) ==> Fenced(Committed(s)))
  {
    hide C.Inv, C.Step;
    ConsoleMoves(s.console, C.Other(A.Get(false, true)));
    C.StepKeeps(s.console, C.Other(A.Get(false, true)));
    OtherShows(s.console, A.Get(false, true));
    if s.console.data.Some? { ShownAfterFence(s.console); }
    var t := Committed(s);
    forall o: nat | o < |s.overlays| ensures !Live(t, o) { assert s.overlays[o].epoch <= s.epoch; }
  }

  lemma OtherShows(s: C.State, e: A.Event<Session>)
    ensures var t := C.Step(s, C.Other(e));
      t.data == s.data && t.organization == s.organization && t.fence == s.fence && t.epoch == s.epoch
  {}

  lemma ArriveKeeps(s: State, o: nat, ok: bool)
    requires Inv(s)
    ensures Inv(Arrive(s, o, ok))
  {
    hide C.Inv;
    var t := Arrive(s, o, ok);
    forall p: nat | Live(t, p) && t.overlays[p].begun <= t.console.fence.epoch ensures t.uncommitted {
      assert Live(s, p);
    }
  }

  lemma StepKeeps(s: State, e: Event)
    requires Inv(s)
    ensures Inv(Step(s, e))
  {
    hide Inv;
    match e
    case OfConsole(event) => ConsoleKeeps(s, event);
    case Commit => CommitKeeps(s);
    case Arrived(o, ok) => ArriveKeeps(s, o, ok);
  }

  lemma {:induction false} RunKeeps(s: State, es: seq<Event>)
    requires Inv(s)
    ensures Inv(Run(s, es))
    decreases |es|
  {
    hide Inv, Step;
    if es != [] {
      StepKeeps(s, es[0]);
      RunKeeps(Step(s, es[0]), es[1..]);
    }
  }

  lemma InitialInv() ensures Inv(Initial()) {}

  /** In every run, records and summary on display together are of one organization. */
  lemma OverlayMatchesSummary(es: seq<Event>)
    ensures var s := Run(Initial(), es);
      s.records.Some? && s.console.data.Some? ==> s.records.value.organization == s.console.data.value.organization
  {
    InitialInv();
    RunKeeps(Initial(), es);
  }

  /** The only step that may put up records of a run from before the latest switch: one that arrives, and passes the
      write's guard, after the switch and before the next commit. */
  predicate Late(s: State, e: Event) {
    e.Arrived? && s.uncommitted && Writes(s, e.overlay, e.ok) && s.overlays[e.overlay].begun <= s.console.fence.epoch
  }

  lemma FencedExactly(s: State, e: Event)
    requires Inv(s) && Fenced(s)
    ensures Fenced(Step(s, e)) <==> !Late(s, e)
  {
    hide C.Inv, C.Step;
    match e
    case OfConsole(event) => ConsoleKeeps(s, event);
    case Commit => CommitKeeps(s);
    case Arrived(o, ok) =>
      if Writes(s, o, ok) && s.overlays[o].begun <= s.console.fence.epoch { assert Live(s, o); }
  }

  /** No run of the effect arrives between a switch and the next commit. */
  ghost predicate Prompt(s: State, es: seq<Event>)
    decreases |es|
  {
    es != [] ==> (es[0].Arrived? ==> !s.uncommitted) && Prompt(Step(s, es[0]), es[1..])
  }

  /** So if every switch is committed before a run arrives, records on display always come from after the latest fence. */
  lemma {:induction false} PromptRunsAreFenced(s: State, es: seq<Event>)
    requires Inv(s) && Fenced(s) && Prompt(s, es)
    ensures Fenced(Run(s, es))
    decreases |es|
  {
    hide Inv, Fenced, Step;
    if es != [] {
      StepKeeps(s, es[0]);
      FencedExactly(s, es[0]);
      PromptRunsAreFenced(Step(s, es[0]), es[1..]);
    }
  }

  /** And otherwise not: a live run for the organization on display, which has read its session, arrives right after the
      console has switched to another tenant, and its records are put up beside the empty summary. */
  lemma StaleRecordsAfterSwitch(s: State, o: nat, x: Session)
    requires Inv(s) && Live(s, o) && Read(s, o).Some?
    requires s.console.organization == Some(Read(s, o).value.organization)
    ensures var switched := Step(s, OfConsole(C.OrganizationSwitched(x)));
      var t := Step(switched, Arrived(o, true));
      && t.records == Some(Records(o, Read(s, o).value.organization)) && t.console.data == None
      && t.console.authority.value == Some(x) && !Fenced(t)
  {
    SwitchKeepsWaiters(s.console, x);
    var switched := Step(s, OfConsole(C.OrganizationSwitched(x)));
    assert Live(switched, o) && Read(switched, o) == Read(s, o);
  }

  lemma SwitchKeepsWaiters(s: C.State, x: Session)
    ensures var t := C.Step(s, C.OrganizationSwitched(x));
      && t.data == None && t.organization == s.organization && t.authority.value == Some(x) && t.fence.epoch == s.epoch + 1
      && |s.authority.waiters| <= |t.authority.waiters| && t.authority.waiters[..|s.authority.waiters|] == s.authority.waiters
  {}

  /** A commit is what a switch waits for: it cleans up the last run of the effect, and begins another exactly with a summary
      on display, in a new epoch and with a getter of its own. */
  lemma CommitExactly(s: State)
    ensures var t := Step(s, Commit);
      var n := |s.overlays|;
      && !t.uncommitted && t.records == s.records && (n > 0 ==> |t.overlays| >= n && t.overlays[n - 1].aborted)
      && (s.console.data.None? ==> |t.overlays| == n && t.epoch == s.epoch && t.console == s.console)
      && (s.console.data.Some? ==>
            && |t.overlays| == n + 1 && t.epoch == s.epoch + 1 && Live(t, n) && t.overlays[n].begun == s.console.epoch
            && t.overlays[n].waiter == |s.console.authority.waiters|
            && |t.console.authority.waiters| == |s.console.authority.waiters| + 1)
  {}

  /** A live run that fails takes the records down; one that is over, or read another organization, leaves them. */
  lemma ArriveExactly(s: State, o: nat, ok: bool)
    requires o < |s.overlays| && !s.overlays[o].done
    ensures var t := Step(s, Arrived(o, ok));
      && t.overlays[o].done && t.console == s.console && t.epoch == s.epoch
      && (Live(s, o) && !(ok && Read(s, o).Some?) ==> t.records == None)
      && (!Live(s, o) ==> t.records == s.records)
      && (Live(s, o) && ok && Read(s, o).Some? ==>
            t.records == if s.console.organization == Some(Read(s, o).value.organization)
                         then Some(Records(o, Read(s, o).value.organization)) else s.records)
  {}

  /** Such a state is reached by one switch, its refresh and a commit. */
  lemma LiveRunReached(y: Session)
    ensures var es := [OfConsole(C.OrganizationSwitched(y)), OfConsole(C.SessionReady(0, false)),
                       OfConsole(C.FetchDone(0, C.Summary(y.organization))), Commit];
      var s := Run(Initial(), es);
      && Inv(s) && Fenced(s) && Live(s, 0) && Read(s, 0) == Some(y) && s.console.organization == Some(y.organization)
  {
    var a, b, c := C.OrganizationSwitched(y), C.SessionReady(0, false), C.FetchDone(0, C.Summary(y.organization));
    var es := [OfConsole(a), OfConsole(b), OfConsole(c), Commit];
    InitialInv();
    RunKeeps(Initial(), es);
    RunFour(Initial(), OfConsole(a), OfConsole(b), OfConsole(c), Commit);
    C.SwitchThenShows(C.Initial(), y);
    C.RunThree(C.Initial(), a, b, c);
    SwitchedAuthority(y);
    var shown := Step(Step(Step(Initial(), OfConsole(a)), OfConsole(b)), OfConsole(c));
    assert shown.console == C.Step(C.Step(C.Step(C.Initial(), a), b), c);
    GetCached(shown.console.authority, y);
  }

  lemma SwitchedAuthority(y: Session)
    ensures var a, b, c := C.OrganizationSwitched(y), C.SessionReady(0, false), C.FetchDone(0, C.Summary(y.organization));
      C.Step(C.Step(C.Step(C.Initial(), a), b), c).authority.value == Some(y)
  {}

  lemma GetCached(a: A.State<Session>, y: Session)
    requires a.value == Some(y)
    ensures var t := A.Step(a, A.Get(false, true));
      |t.waiters| == |a.waiters| + 1 && t.waiters[|a.waiters|].status == A.Received(y)
  {}

  lemma RunFour(s: State, a: Event, b: Event, c: Event, d: Event)
    ensures Run(s, [a, b, c, d]) == Step(Step(Step(Step(s, a), b), c), d)
  {
    hide Step;
    assert [a, b, c, d][1..] == [b, c, d] && [b, c, d][1..] == [c, d] && [c, d][1..] == [d];
    var t := Step(Step(Step(s, a), b), c);
    assert Run(t, [d]) == Step(t, d);
    assert Run(Step(Step(s, a), b), [c, d]) == Run(t, [d]);
    assert Run(Step(s, a), [b, c, d]) == Run(Step(Step(s, a), b), [c, d]);
  }
}
