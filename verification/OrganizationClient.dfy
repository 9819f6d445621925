/** Overlapping tenant switches of the organization client, with and without a shared session provider.

    Each stretch of code between two awaits is one atomic step. Replies, load settlements and continuations come in
    any order, and everything the server answers is arbitrary. The provider is the console's session authority, whose
    own steps may come between any two of the client's. A parsed session is a new object, so it
    carries a reference number, and `===` compares references. */
module OrganizationClient {
  import opened Common
  import opened ConsoleSession
  import A = SessionAuthority

  datatype LoadStatus = Running | Fulfilled(session: Session) | Failed

  datatype Load = Load(generation: nat, status: LoadStatus)

  /** What a call of `getSession` resolves to. */
  datatype Await = Cached(session: Session) | OnLoad(load: nat) | OnProvider(waiter: nat) | Refused

  datatype Result = Returned(session: Session) | Threw

  datatype Phase =
    | AwaitContext(on: Await)
    | Posting(context: Session)
    | AwaitReconcile(context: Session, on: Await)
    | Done(startedWith: Option<Session>, result: Result)

  /** One call of `switchOrganization`; `sends` counts the switch requests it has sent. */
  datatype Call = Call(organization: Id, sequence: nat, phase: Phase, sends: nat)

  datatype Install = Install(call: nat, session: Session)

  datatype State = State(
    provided: bool, authority: A.State<Session>, session: Option<Session>, pending: Option<nat>, generation: nat, sequence: nat,
    loads: seq<Load>, calls: seq<Call>, installs: seq<Install>, nextRef: nat)

  /** How the switch request ended: a payload, well formed or not, or one of the error classes. */
  datatype Reply =
    | Payload(wellFormed: bool, active: bool, organization: Id, member: Id)
    | Unauthorized | Ambiguous(aborted: bool) | OtherError

  datatype Identity = Identity(organization: Id, member: Id)

  datatype Event =
    | GetSession(aborted: bool)
    | InvalidateSession
    | LoadSettled(load: nat, loaded: Option<Identity>)
    | LoadFailed(load: nat)
    | StartSwitch(organization: Id, aborted: bool)
    | ContextReady(call: nat)
    | Replied(call: nat, reply: Reply)
    | ReconcileReady(call: nat)
    | Provider(event: A.Event<Session>)

  function Fresh(provided: bool): State { State(provided, A.Empty(), None, None, 0, 0, [], [], [], 0) }

  /** `aborted` says that the caller's signal was aborted before the call. */
  function GetSync(s: State, aborted: bool): (State, Await) {
    if s.provided then
      if aborted then (s, Refused)
      else (s.(authority := A.GetStep(s.authority, false, true)), OnProvider(|s.authority.waiters|))
    else if s.session.Some? then (s, Cached(s.session.value))
    else if s.pending.Some? then (s, OnLoad(s.pending.value))
    else (s.(pending := Some(|s.loads|), loads := s.loads + [Load(s.generation, Running)]), OnLoad(|s.loads|))
  }

  function Invalidate(s: State): State {
    if s.provided then s.(authority := A.ClearStep(s.authority, None))
    else s.(generation := s.generation + 1, session := None, pending := None)
  }

  /** What an unauthorized reply does: the provider forgets only the session that was used. */
  function Expire(s: State, context: Session): State {
    if s.provided then s.(authority := A.ClearStep(s.authority, Some(context))) else Invalidate(s)
  }

  function SettleLoad(s: State, id: nat, loaded: Option<Identity>): State {
    if id >= |s.loads| || !s.loads[id].status.Running? then s
    else if loaded.None? || s.loads[id].generation != s.generation
    then s.(loads := s.loads[id := s.loads[id].(status := Failed)])
    else
      var x := Session(s.nextRef, loaded.value.organization, loaded.value.member);
      s.(loads := s.loads[id := s.loads[id].(status := Fulfilled(x))], session := Some(x), nextRef := s.nextRef + 1)
  }

  function CleanUp(s: State, id: nat): State {
    if id < |s.loads| && s.loads[id].status.Failed? && s.pending == Some(id) then s.(pending := None) else s
  }

  function WithPhase(s: State, c: nat, phase: Phase): State
    requires c < |s.calls|
  {
    s.(calls := s.calls[c := s.calls[c].(phase := phase)])
  }

  function Start(s: State, organization: Id, aborted: bool): State {
    var (t, on) := GetSync(s, aborted);
    t.(sequence := t.sequence + 1, calls := t.calls + [Call(organization, t.sequence + 1, AwaitContext(on), 0)])
  }

  datatype Awaited = NotYet | Rejected | Got(session: Session)

  /** What an awaited session promise has to offer now. */
  function Observe(s: State, on: Await): Awaited {
    match on
    case Cached(x) => Got(x)
    case Refused => Rejected
    case OnProvider(w) =>
      if w >= |s.authority.waiters| then NotYet
      else (match s.authority.waiters[w].status
            case Waiting => NotYet
            case Received(x) => Got(x)
            case Rejected | Aborted => Awaited.Rejected)
    case OnLoad(id) =>
      if id >= |s.loads| || s.loads[id].status.Running? then NotYet
      else if s.loads[id].status.Failed? then Rejected
      else Got(s.loads[id].status.session)
  }

  function Continue(s: State, c: nat): State {
    if c >= |s.calls| || !s.calls[c].phase.AwaitContext? then s
    else match Observe(s, s.calls[c].phase.on)
      case NotYet => s
      case Rejected => WithPhase(s, c, Done(None, Threw))
      case Got(x) =>
        if x.organization == s.calls[c].organization then WithPhase(s, c, Done(Some(x), Threw))
        else s.(calls := s.calls[c := s.calls[c].(phase := Posting(x), sends := s.calls[c].sends + 1)])
  }

  function ReplyStep(s: State, c: nat, reply: Reply): State {
    if c >= |s.calls| || !s.calls[c].phase.Posting? then s
    else
      var call := s.calls[c];
      var context := call.phase.context;
      match reply
      case Unauthorized => WithPhase(Expire(s, context), c, Done(Some(context), Threw))
      case OtherError => WithPhase(s, c, Done(Some(context), Threw))
      case Ambiguous(aborted) =>
        var (t, on) := GetSync(Invalidate(s), aborted);
        WithPhase(t, c, AwaitReconcile(context, on))
      case Payload(wellFormed, active, organization, member) =>
        if !wellFormed || !active || organization != call.organization || member != context.member
           || call.sequence != s.sequence || (!s.provided && s.session != Some(context))
        then WithPhase(s, c, Done(Some(context), Threw))
        else
          var x := Session(s.nextRef, organization, member);
          WithPhase(if s.provided then s.(authority := A.ReplaceStep(s.authority, x))
                    else s.(session := Some(x), pending := None), c, Done(Some(context), Returned(x)))
            .(installs := s.installs + [Install(c, x)], nextRef := s.nextRef + 1)
  }

  function Reconcile(s: State, c: nat): State {
    if c >= |s.calls| || !s.calls[c].phase.AwaitReconcile? then s
    else
      var call := s.calls[c];
      var context := call.phase.context;
      match Observe(s, call.phase.on)
      case NotYet => s
      case Rejected => WithPhase(s, c, Done(Some(context), Threw))
      case Got(x) =>
        if call.sequence == s.sequence && x.organization == call.organization && x.member == context.member
        then WithPhase(s, c, Done(Some(context), Returned(x)))
        else WithPhase(s, c, Done(Some(context), Threw))
  }

  function Step(s: State, e: Event): State {
    match e
    case GetSession(aborted) => GetSync(s, aborted).0
    case InvalidateSession => Invalidate(s)
    case LoadSettled(id, loaded) => SettleLoad(s, id, loaded)
    case LoadFailed(id) => CleanUp(s, id)
    case StartSwitch(organization, aborted) => Start(s, organization, aborted)
    case ContextReady(c) => Continue(s, c)
    case Replied(c, reply) => ReplyStep(s, c, reply)
    case ReconcileReady(c) => Reconcile(s, c)
    case Provider(event) => if s.provided then s.(authority := A.Step(s.authority, event)) else s
  }

  function Run(s: State, events: seq<Event>): State
    decreases |events|
  {
    if events == [] then s else Run(Step(s, events[0]), events[1..])
  }

  // What every step keeps.

  /** The session cache: a load of the current generation that still runs is the pending one, and there is none while
      a session is cached. */
  ghost predicate CacheInv(s: State) {
    && (s.pending.Some? ==> s.pending.value < |s.loads| && s.loads[s.pending.value].generation == s.generation)
    && (forall id :: 0 <= id < |s.loads| ==> s.loads[id].generation <= s.generation)
    && (forall id :: 0 <= id < |s.loads| && s.loads[id] == Load(s.generation, Running) ==>
          s.pending == Some(id) && s.session.None?)
  }

  /** A call sends its request when it leaves the first await and never again, and what it returns is a session of the
      requested organization and of the member it started with. */
  ghost predicate CallInv(c: nat, call: Call) {
    && call.sequence == c + 1
    && call.sends <= 1 && (call.phase.AwaitContext? ==> call.sends == 0)
    && (call.phase.Posting? || call.phase.AwaitReconcile? ==> call.sends == 1)
    && (call.phase.Done? && call.phase.result.Returned? ==>
          call.phase.startedWith.Some? && call.sends == 1
          && call.phase.result.session.organization == call.organization
          && call.phase.result.session.member == call.phase.startedWith.value.member)
  }

  /** Installed sessions come from calls that are done and returned them. */
  ghost predicate InstallInv(s: State, i: Install) {
    && i.call < |s.calls| && s.calls[i.call].phase.Done?
    && s.calls[i.call].phase.result == Returned(i.session)
  }

  ghost predicate Inv(s: State) {
    && A.Inv(s.authority) && CacheInv(s)
    && s.sequence == |s.calls|
    && (forall c :: 0 <= c < |s.calls| ==> CallInv(c, s.calls[c]))
    && (forall k :: 0 <= k < |s.installs| ==> InstallInv(s, s.installs[k]))
    && (forall j, k :: 0 <= j < k < |s.installs| ==> s.installs[j].call < s.installs[k].call)
  }

  /** The part of the state that a step on the cache leaves alone. */
  ghost predicate SameCalls(s: State, t: State) {
    t.calls == s.calls && t.installs == s.installs && t.sequence == s.sequence && t.provided == s.provided
  }

  /** The authority's part of a step, and the rest untouched. */
  lemma ProviderKeeps(s: State, e: A.Event<Session>)
    requires Inv(s)
    ensures Inv(s.(authority := A.Step(s.authority, e)))
  {
    A.StepKeeps(s.authority, e);
    hide A.Inv, A.Step;
    InstallsKept(s, s.(authority := A.Step(s.authority, e)));
  }

  lemma GetKeeps(s: State, aborted: bool)
    requires Inv(s)
    ensures Inv(GetSync(s, aborted).0) && SameCalls(s, GetSync(s, aborted).0)
  {
    hide A.Inv;
    ProviderKeeps(s, A.Get(false, true));
    InstallsKept(s, GetSync(s, aborted).0);
  }

  lemma InvalidateKeeps(s: State, expected: Option<Session>)
    requires Inv(s)
    ensures Inv(Invalidate(s)) && SameCalls(s, Invalidate(s))
    ensures expected.Some? ==> Inv(Expire(s, expected.value)) && SameCalls(s, Expire(s, expected.value))
  {
    hide A.Inv;
    ProviderKeeps(s, A.Clear(None));
    ProviderKeeps(s, A.Clear(expected));
    InstallsKept(s, Invalidate(s));
  }

  lemma AuthorityOk(s: State) requires Inv(s) ensures A.Inv(s.authority) {}

  lemma LoadKeeps(s: State, id: nat, loaded: Option<Identity>)
    requires Inv(s)
    ensures Inv(SettleLoad(s, id, loaded)) && Inv(CleanUp(s, id))
  {
    hide A.Inv;
    InstallsKept(s, SettleLoad(s, id, loaded));
    InstallsKept(s, CleanUp(s, id));
  }

  lemma InstallsKept(s: State, t: State)
    requires SameCalls(s, t) && forall k :: 0 <= k < |s.installs| ==> InstallInv(s, s.installs[k])
    ensures forall k :: 0 <= k < |t.installs| ==> InstallInv(t, t.installs[k])
  {
    forall k | 0 <= k < |t.installs| ensures InstallInv(t, t.installs[k]) { assert InstallInv(s, s.installs[k]); }
  }

  /** Moving one call that is not done keeps the invariant if the call's own part holds. */
  lemma CallKeeps(s: State, t: State, c: nat)
    requires Inv(s) && A.Inv(t.authority) && CacheInv(t) && c < |s.calls| && !s.calls[c].phase.Done?
    requires |t.calls| == |s.calls| && t.calls == s.calls[c := t.calls[c]] && CallInv(c, t.calls[c])
    requires t.installs == s.installs && t.sequence == s.sequence
    ensures Inv(t)
  {
    hide A.Inv;
    forall k | 0 <= k < |t.installs| ensures InstallInv(t, t.installs[k]) { assert InstallInv(s, s.installs[k]); }
  }

  lemma StartKeeps(s: State, organization: Id, aborted: bool)
    requires Inv(s)
    ensures Inv(Start(s, organization, aborted))
  {
    hide A.Inv, A.GetStep;
    GetKeeps(s, aborted);
    var t, u := GetSync(s, aborted).0, Start(s, organization, aborted);
    forall k | 0 <= k < |u.installs| ensures InstallInv(u, u.installs[k]) { assert InstallInv(t, t.installs[k]); }
  }

  lemma ContinueKeeps(s: State, c: nat)
    requires Inv(s)
    ensures Inv(Continue(s, c))
  {
    hide Observe, A.Inv;
    var t := Continue(s, c);
    if t != s {
      assert CallInv(c, s.calls[c]);
      assert t.calls == s.calls[c := t.calls[c]];
      CallKeeps(s, t, c);
    }
  }

  lemma ReconcileKeeps(s: State, c: nat)
    requires Inv(s)
    ensures Inv(Reconcile(s, c))
  {
    hide Observe, A.Inv;
    var t := Reconcile(s, c);
    if t != s {
      assert CallInv(c, s.calls[c]);
      assert t.calls == s.calls[c := t.calls[c]];
      CallKeeps(s, t, c);
    }
  }

  lemma ReplyKeeps(s: State, c: nat, reply: Reply)
    requires Inv(s)
    ensures Inv(ReplyStep(s, c, reply))
  {
    hide A.Inv, A.GetStep, A.ClearStep, A.ReplaceStep;
    if c < |s.calls| && s.calls[c].phase.Posting? {
      assert CallInv(c, s.calls[c]);
      InvalidateKeeps(s, Some(s.calls[c].phase.context));
      if reply.Ambiguous? { GetKeeps(Invalidate(s), reply.aborted); }
      var t := ReplyStep(s, c, reply);
      if |t.installs| == |s.installs| { CallKeeps(s, t, c); } else { InstallKeeps(s, c, reply); }
    }
  }

  /** Only the latest call installs, and it had not installed before. */
  lemma InstallKeeps(s: State, c: nat, reply: Reply)
    requires Inv(s) && c < |s.calls| && s.calls[c].phase.Posting?
    requires |ReplyStep(s, c, reply).installs| != |s.installs|
    ensures Inv(ReplyStep(s, c, reply))
  {
    hide A.Inv;
    var t := ReplyStep(s, c, reply);
    assert CallInv(c, s.calls[c]);
    assert c == |s.calls| - 1;
    ProviderKeeps(s, A.Replace(t.installs[|s.installs|].session));
    forall k | 0 <= k < |s.installs| ensures s.installs[k].call < c && InstallInv(t, s.installs[k]) {
      assert InstallInv(s, s.installs[k]);
    }
  }

  lemma StepKeeps(s: State, e: Event)
    requires Inv(s)
    ensures Inv(Step(s, e))
  {
    hide A.Inv, Inv, A.GetStep, A.ClearStep, A.Step;
    match e
    case GetSession(aborted) => GetKeeps(s, aborted);
    case InvalidateSession => InvalidateKeeps(s, None);
    case LoadSettled(id, loaded) => LoadKeeps(s, id, loaded);
    case LoadFailed(id) => LoadKeeps(s, id, None);
    case StartSwitch(organization, aborted) => StartKeeps(s, organization, aborted);
    case ContextReady(c) => ContinueKeeps(s, c);
    case Replied(c, reply) => ReplyKeeps(s, c, reply);
    case ReconcileReady(c) => ReconcileKeeps(s, c);
    case Provider(event) => ProviderKeeps(s, event);
  }

  lemma {:induction false} RunKeeps(s: State, events: seq<Event>)
    requires Inv(s)
    ensures Inv(Run(s, events))
    decreases |events|
  {
    hide Inv, Step;
    if events != [] {
      StepKeeps(s, events[0]);
      RunKeeps(Step(s, events[0]), events[1..]);
    }
  }

  /** Over every run of overlapping switches: each call sends at most once, what it returns or installs is bound to
      its organization and member, and installs come from strictly later calls. */
  lemma SwitchesAreSafe(provided: bool, events: seq<Event>)
    ensures var s := Run(Fresh(provided), events);
      && (forall c :: 0 <= c < |s.calls| ==> s.calls[c].sends <= 1)
      && (forall c :: 0 <= c < |s.calls| && s.calls[c].phase.Done? && s.calls[c].phase.result.Returned? ==>
            && s.calls[c].phase.result.session.organization == s.calls[c].organization
            && s.calls[c].phase.startedWith.Some?
            && s.calls[c].phase.result.session.member == s.calls[c].phase.startedWith.value.member)
      && (forall k :: 0 <= k < |s.installs| ==>
            && s.installs[k].call < |s.calls| && s.calls[s.installs[k].call].phase.Done?
            && s.calls[s.installs[k].call].phase.result == Returned(s.installs[k].session)
            && s.installs[k].session.organization == s.calls[s.installs[k].call].organization)
      && (forall j, k :: 0 <= j < k < |s.installs| ==> s.installs[j].call < s.installs[k].call)
  {
    RunKeeps(Fresh(provided), events);
    var s := Run(Fresh(provided), events);
    forall c | 0 <= c < |s.calls| ensures CallInv(c, s.calls[c]) {}
    forall k | 0 <= k < |s.installs| ensures InstallInv(s, s.installs[k]) {}
  }

  predicate Invalidates(e: Event) {
    e.InvalidateSession? || (e.Replied? && (e.reply.Unauthorized? || e.reply.Ambiguous?))
  }

  /** Without a provider a cached session survives every step but an invalidation and an install; in particular no
      load, whatever its generation, overwrites it. */
  lemma CachedSessionKept(s: State, e: Event)
    requires Inv(s) && !s.provided && s.session.Some? && !Invalidates(e)
    ensures !Step(s, e).provided && s.installs <= Step(s, e).installs
    ensures Step(s, e).installs == s.installs ==> Step(s, e).session == s.session
    ensures Step(s, e).session.Some?
  {}

  /** Once a newer switch has begun, an older one never installs a session. */
  lemma {:induction false} SupersededNeverInstalls(s: State, c: nat, events: seq<Event>)
    requires Inv(s) && c + 1 < |s.calls|
    requires forall k :: 0 <= k < |s.installs| ==> s.installs[k].call != c
    ensures forall k :: 0 <= k < |Run(s, events).installs| ==> Run(s, events).installs[k].call != c
    decreases |events|
  {
    hide Inv, Step;
    if events != [] {
      StepKeeps(s, events[0]);
      SupersededStep(s, c, events[0]);
      SupersededNeverInstalls(Step(s, events[0]), c, events[1..]);
    }
  }

  lemma SupersededStep(s: State, c: nat, e: Event)
    requires Inv(s) && c + 1 < |s.calls|
    requires forall k :: 0 <= k < |s.installs| ==> s.installs[k].call != c
    ensures |s.calls| <= |Step(s, e).calls|
    ensures forall k :: 0 <= k < |Step(s, e).installs| ==> Step(s, e).installs[k].call != c
  {
    hide A.Inv, A.Step, A.GetStep, A.ClearStep, A.ReplaceStep, CacheInv, InstallInv, Observe;
    assert CallInv(c, s.calls[c]);
  }

  lemma RunThree(s: State, a: Event, b: Event, c: Event)
    ensures Run(s, [a, b, c]) == Step(Step(Step(s, a), b), c)
  {
    hide Step;
    assert [a, b, c][1..] == [b, c] && [b, c][1..] == [c];
    assert Run(Step(Step(s, a), b), [c]) == Step(Step(Step(s, a), b), c);
  }

  /** A switch that nothing disturbs, answered with a session of the requested organization and the same member,
      installs and returns it. */
  lemma UndisturbedSwitch(s: State, organization: Id, aborted: bool)
    requires !s.provided && s.session.Some? && s.session.value.organization != organization
    ensures var c := |s.calls|;
      var reply := Payload(true, true, organization, s.session.value.member);
      var t := Run(s, [StartSwitch(organization, aborted), ContextReady(c), Replied(c, reply)]);
      && |t.calls| == c + 1 && t.session.Some? && t.session.value.organization == organization
      && t.installs == s.installs + [Install(c, t.session.value)]
      && t.calls[c].phase == Done(s.session, Returned(t.session.value)) && t.calls[c].sends == 1
  {
    hide Run;
    var c := |s.calls|;
    var reply := Payload(true, true, organization, s.session.value.member);
    RunThree(s, StartSwitch(organization, aborted), ContextReady(c), Replied(c, reply));
    var t := Step(Step(s, StartSwitch(organization, aborted)), ContextReady(c));
    assert t.calls[c] == Call(organization, s.sequence + 1, Posting(s.session.value), 1) && t.session == s.session;
  }

  /** An installed session stays, over any run, until the session is invalidated or a later switch installs another. */
  lemma {:induction false} InstalledSessionStays(s: State, events: seq<Event>)
    requires Inv(s) && !s.provided && s.session.Some?
    requires forall k :: 0 <= k < |events| ==> !Invalidates(events[k])
    ensures s.installs <= Run(s, events).installs
    ensures Run(s, events).installs == s.installs ==> Run(s, events).session == s.session
    decreases |events|
  {
    hide Inv, Step, Invalidates;
    if events != [] {
      StepKeeps(s, events[0]);
      CachedSessionKept(s, events[0]);
      InstalledSessionStays(Step(s, events[0]), events[1..]);
    }
  }

  // What each step does.

  /** The awaited session promise is fulfilled with this session. */
  ghost predicate Offers(s: State, on: Await, x: Session) {
    match on
    case Cached(y) => y == x
    case OnLoad(id) => id < |s.loads| && s.loads[id].status == Fulfilled(x)
    case OnProvider(w) => w < |s.authority.waiters| && s.authority.waiters[w].status == A.Received(x)
    case Refused => false
  }

  /** The awaited session promise is rejected. */
  ghost predicate Rejects(s: State, on: Await) {
    match on
    case Cached(_) => false
    case OnLoad(id) => id < |s.loads| && s.loads[id].status == Failed
    case OnProvider(w) =>
      w < |s.authority.waiters| && (s.authority.waiters[w].status.Rejected? || s.authority.waiters[w].status.Aborted?)
    case Refused => true
  }

  /** Without a provider, a load that is still running fills the cache with its session exactly when it brings one in its
      own generation; otherwise it has failed and the cache is as before. */
  lemma SettleExactly(s: State, id: nat, loaded: Option<Identity>)
    requires id < |s.loads| && s.loads[id].status.Running?
    ensures var t := Step(s, LoadSettled(id, loaded));
      if loaded.Some? && s.loads[id].generation == s.generation
      then && t.session.Some? && t.loads[id].status == Fulfilled(t.session.value)
           && t.session.value == Session(s.nextRef, loaded.value.organization, loaded.value.member)
      else t.session == s.session && t.loads[id].status == Failed
  {}

  /** A failed load is forgotten, so that the next caller starts another. */
  lemma CleanUpExactly(s: State, id: nat)
    requires id < |s.loads| && s.loads[id].status.Failed? && !s.provided
    ensures var t := Step(s, LoadFailed(id));
      && t.pending == (if s.pending == Some(id) then None else s.pending) && t.session == s.session
      && (s.session.None? && s.pending == Some(id) ==> |GetSync(t, false).0.loads| == |s.loads| + 1)
  {}

  /** Without a provider a caller gets the cached session, or waits on the pending load, or starts one and waits on it. */
  lemma GetExactly(s: State, aborted: bool)
    requires !s.provided && CacheInv(s)
    ensures var (t, on) := GetSync(s, aborted);
      && (s.session.Some? ==> t == s && on == Cached(s.session.value))
      && (s.session.None? && s.pending.Some? ==> t == s && on == OnLoad(s.pending.value))
      && (s.session.None? && s.pending.None? ==>
            && on == OnLoad(|s.loads|) && t.pending == Some(|s.loads|) && |t.loads| == |s.loads| + 1
            && t.loads[|s.loads|] == Load(s.generation, Running) && t.session == None)
  {}

  /** An invalidation leaves neither client nor provider with a session. */
  lemma InvalidateExactly(s: State)
    ensures var t := Step(s, InvalidateSession);
      && (s.provided ==> t.authority.value == None && t.authority.pending == None
                         && t.authority.generation == s.authority.generation + 1)
      && (!s.provided ==> t.session == None && t.pending == None && t.generation == s.generation + 1)
  {}

  /** A switch goes on exactly when its session is there: it ends if that one is already of the organization asked for, or
      posts its request with it; it ends if there is none to be had. */
  lemma ContinueExactly(s: State, c: nat, x: Session)
    requires c < |s.calls| && s.calls[c].phase.AwaitContext?
    ensures var t := Step(s, ContextReady(c));
      var on := s.calls[c].phase.on;
      && |t.calls| == |s.calls|
      && (Offers(s, on, x) && x.organization == s.calls[c].organization ==> t.calls[c].phase == Done(Some(x), Threw))
      && (Offers(s, on, x) && x.organization != s.calls[c].organization ==>
            t.calls[c].phase == Posting(x) && t.calls[c].sends == s.calls[c].sends + 1)
      && (Rejects(s, on) ==> t.calls[c].phase == Done(None, Threw))
      && (!(exists y :: Offers(s, on, y)) && !Rejects(s, on) ==> t == s)
  {
    var on := s.calls[c].phase.on;
    match Observe(s, on)
    case Got(y) => assert Offers(s, on, y);
    case _ =>
  }

  /** The session read back after an ambiguous reply is the result exactly when no newer switch has begun and it is of the
      organization asked for and of the member the switch started with. */
  lemma ReconcileExactly(s: State, c: nat, x: Session)
    requires c < |s.calls| && s.calls[c].phase.AwaitReconcile?
    ensures var t := Step(s, ReconcileReady(c));
      var call := s.calls[c];
      && |t.calls| == |s.calls| && t.installs == s.installs && t.calls[c].sends == call.sends
      && (Offers(s, call.phase.on, x) ==>
            t.calls[c].phase == Done(Some(call.phase.context),
              if call.sequence == s.sequence && x.organization == call.organization && x.member == call.phase.context.member
              then Returned(x) else Threw))
      && (Rejects(s, call.phase.on) ==> t.calls[c].phase == Done(Some(call.phase.context), Threw))
  {}

  /** What each kind of reply to a posted switch leads to. A payload installs exactly if it is well formed and active, of
      the organization asked for and the member the switch started with, no newer switch has begun, and without a provider
      the session used is still the cached one; an ambiguous outcome leads to a reconciliation; everything else throws. */
  lemma ReplyExactly(s: State, c: nat, reply: Reply)
    requires c < |s.calls| && s.calls[c].phase.Posting?
    ensures var t := Step(s, Replied(c, reply));
      var call, context := s.calls[c], s.calls[c].phase.context;
      var installs := && reply.Payload? && reply.wellFormed && reply.active && reply.organization == call.organization
                      && reply.member == context.member && call.sequence == s.sequence
                      && (s.provided || s.session == Some(context));
      var x := if reply.Payload? then Session(s.nextRef, reply.organization, reply.member) else context;
      && |t.calls| == |s.calls| && t.calls[c].sends == call.sends
      && t.installs == s.installs + (if installs then [Install(c, x)] else [])
      && (installs ==>
            && t.calls[c].phase == Done(Some(context), Returned(x))
            && (if s.provided then t.authority.value == Some(x) && t.authority.pending == None
                else t.session == Some(x) && t.pending == None))
      && (reply.Ambiguous? ==> t.calls[c].phase.AwaitReconcile? && t.calls[c].phase.context == context)
      && (!installs && !reply.Ambiguous? ==> t.calls[c].phase == Done(Some(context), Threw))
  {}

  /** After an unauthorized reply the session that was used is gone: the provider does not hold it, and keeps any other;
      without a provider nothing is cached. */
  lemma UnauthorizedForgets(s: State, c: nat)
    requires c < |s.calls| && s.calls[c].phase.Posting?
    ensures var context := s.calls[c].phase.context;
      var t := Step(s, Replied(c, Unauthorized));
      && t.calls[c].phase == Done(Some(context), Threw)
      && (s.provided ==>
            && t.authority.value != Some(context)
            && (s.authority.value == Some(context) ==> t.authority.value == None && t.authority.pending == None)
            && (s.authority.value != Some(context) ==> t.authority == s.authority))
      && (!s.provided ==> t.session == None && t.pending == None)
  {}

  // The client's part of the authority's life.

  /** What a step asks of the provider, in order. */
  ghost function Asked(s: State, e: Event): seq<A.Event<Session>> {
    match e
    case GetSession(aborted) => if aborted then [] else [A.Get(false, true)]
    case StartSwitch(_, aborted) => if aborted then [] else [A.Get(false, true)]
    case InvalidateSession => [A.Clear(None)]
    case Provider(event) => [event]
    case Replied(c, reply) =>
      if c >= |s.calls| || !s.calls[c].phase.Posting? then []
      else (match reply
            case Unauthorized => [A.Clear(Some(s.calls[c].phase.context))]
            case Ambiguous(aborted) => if aborted then [A.Clear(None)] else [A.Clear(None), A.Get(false, true)]
            case OtherError => []
            case Payload(_, _, organization, member) =>
              if |ReplyStep(s, c, reply).installs| == |s.installs| then []
              else [A.Replace(Session(s.nextRef, organization, member))])
    case _ => []
  }

  /** With a provider, that is all a step does to it. */
  lemma AskedExactly(s: State, e: Event)
    requires s.provided
    ensures Step(s, e).provided && Step(s, e).authority == A.Run(s.authority, Asked(s, e))
  {
    var asked := Asked(s, e);
    if |asked| == 1 { assert asked[1..] == []; }
    if |asked| == 2 { assert asked[1..] == [asked[1]] && asked[1..][1..] == []; }
    assert A.Run(s.authority, asked) ==
      if |asked| == 0 then s.authority
      else if |asked| == 1 then A.Step(s.authority, asked[0])
      else A.Step(A.Step(s.authority, asked[0]), asked[1]) by { RunShort(s.authority, asked); }
    hide A.Run;
  }

  lemma RunShort(a: A.State<Session>, es: seq<A.Event<Session>>)
    requires |es| <= 2
    ensures A.Run(a, es) ==
      if |es| == 0 then a else if |es| == 1 then A.Step(a, es[0]) else A.Step(A.Step(a, es[0]), es[1])
  {
    hide A.Step;
    if es != [] {
      var t, rest := A.Step(a, es[0]), es[1..];
      assert A.Run(a, es) == A.Run(t, rest);
      if rest != [] {
        assert rest == [es[1]] && rest[1..] == [];
        assert A.Run(t, rest) == A.Run(A.Step(t, es[1]), rest[1..]);
      }
    }
  }

  /** A call that is done stays as it is. */
  lemma DoneStays(s: State, e: Event, c: nat)
    requires c < |s.calls| && s.calls[c].phase.Done?
    ensures c < |Step(s, e).calls| && Step(s, e).calls[c] == s.calls[c]
  {
    hide A.Step, A.GetStep, A.ClearStep, A.ReplaceStep, Observe;
  }

  /** Nothing else here depends on the authority. */
  lemma AuthorityChanged(s: State, a: A.State<Session>)
    requires Inv(s) && A.Inv(a)
    ensures Inv(s.(authority := a))
  {
    hide A.Inv;
    InstallsKept(s, s.(authority := a));
  }

  // A switch overtaken by an invalidation.

  /** The session has left the cache, and no new session can be it. */
  ghost predicate Lost(s: State, x: Session) { x.ref < s.nextRef && s.session != Some(x) }

  /** What call `c` works with, or may still receive, has left the cache. */
  ghost predicate Overtaken(s: State, c: nat)
    requires c < |s.calls|
  {
    match s.calls[c].phase
    case AwaitContext(on) =>
      (match on
       case Cached(x) => Lost(s, x)
       case OnLoad(id) =>
         id < |s.loads| &&
         (match s.loads[id].status
          case Failed => true
          case Running => s.loads[id].generation < s.generation
          case Fulfilled(x) => Lost(s, x))
       case OnProvider(_) => false
       case Refused => true)
    case Posting(x) => Lost(s, x)
    case AwaitReconcile(_, _) => true
    case Done(_, _) => true
  }

  ghost predicate NeverInstalled(s: State, c: nat) { forall k :: 0 <= k < |s.installs| ==> s.installs[k].call != c }

  ghost predicate OldRef(s: State, x: Session) { x.ref < s.nextRef }

  /** Without a provider every session the client knows was made before the next one. */
  ghost predicate Refs(s: State) {
    && !s.provided
    && (s.session.Some? ==> OldRef(s, s.session.value))
    && (forall id :: 0 <= id < |s.loads| && s.loads[id].status.Fulfilled? ==> OldRef(s, s.loads[id].status.session))
    && (forall id :: 0 <= id < |s.loads| ==> s.loads[id].generation <= s.generation)
    && (s.pending.Some? ==> s.pending.value < |s.loads|)
    && (forall c :: 0 <= c < |s.calls| ==> CallRefs(s, s.calls[c].phase))
  }

  ghost predicate CallRefs(s: State, phase: Phase) {
    && (phase.AwaitContext? ==>
          && !phase.on.OnProvider? && (phase.on.Cached? ==> OldRef(s, phase.on.session))
          && (phase.on.OnLoad? ==> phase.on.load < |s.loads|))
    && (phase.AwaitReconcile? ==>
          && !phase.on.OnProvider? && (phase.on.Cached? ==> OldRef(s, phase.on.session))
          && (phase.on.OnLoad? ==> phase.on.load < |s.loads|))
    && (phase.Posting? ==> OldRef(s, phase.context))
  }

  lemma CallRefsKept(s: State, t: State)
    requires Refs(s) && s.nextRef <= t.nextRef && |s.loads| <= |t.loads| && |s.calls| <= |t.calls|
    requires forall c :: 0 <= c < |t.calls| ==>
               (c < |s.calls| && t.calls[c].phase == s.calls[c].phase) || CallRefs(t, t.calls[c].phase)
    ensures forall c :: 0 <= c < |t.calls| ==> CallRefs(t, t.calls[c].phase)
  {
    forall c | 0 <= c < |t.calls| ensures CallRefs(t, t.calls[c].phase) {
      if c < |s.calls| { assert CallRefs(s, s.calls[c].phase); }
    }
  }

  lemma CacheRefs(s: State, e: Event)
    requires Refs(s) && (e.GetSession? || e.InvalidateSession? || e.LoadSettled? || e.LoadFailed? || e.Provider?)
    ensures Refs(Step(s, e))
  {
    CallRefsKept(s, Step(s, e));
  }

  lemma StartRefs(s: State, organization: Id, aborted: bool)
    requires Refs(s)
    ensures Refs(Start(s, organization, aborted))
  {
    CallRefsKept(s, Start(s, organization, aborted));
  }

  lemma ResumeRefs(s: State, c: nat)
    requires Refs(s)
    ensures Refs(Continue(s, c)) && Refs(Reconcile(s, c))
  {
    hide A.Step, A.GetStep;
    if c < |s.calls| { assert CallRefs(s, s.calls[c].phase); }
    CallRefsKept(s, Continue(s, c));
    CallRefsKept(s, Reconcile(s, c));
  }

  lemma ReplyRefs(s: State, c: nat, reply: Reply)
    requires Refs(s)
    ensures Refs(ReplyStep(s, c, reply))
  {
    if c < |s.calls| { assert CallRefs(s, s.calls[c].phase); }
    CallRefsKept(s, ReplyStep(s, c, reply));
  }

  lemma StepRefs(s: State, e: Event)
    requires Refs(s)
    ensures Refs(Step(s, e))
  {
    hide Refs, GetSync, Invalidate, SettleLoad, CleanUp, Start, Continue, ReplyStep, Reconcile, A.Step;
    match e
    case StartSwitch(organization, aborted) => StartRefs(s, organization, aborted);
    case ContextReady(c) => ResumeRefs(s, c);
    case ReconcileReady(c) => ResumeRefs(s, c);
    case Replied(c, reply) => ReplyRefs(s, c, reply);
    case _ => CacheRefs(s, e);
  }

  lemma {:induction false} RunRefs(s: State, events: seq<Event>)
    requires Refs(s)
    ensures Refs(Run(s, events))
    decreases |events|
  {
    hide Refs, Step;
    if events != [] {
      StepRefs(s, events[0]);
      RunRefs(Step(s, events[0]), events[1..]);
    }
  }

  lemma OvertakenReply(s: State, c: nat, d: nat, reply: Reply)
    requires !s.provided && c < |s.calls| && Overtaken(s, c) && NeverInstalled(s, c)
    ensures var t := ReplyStep(s, d, reply);
            !t.provided && c < |t.calls| && Overtaken(t, c) && NeverInstalled(t, c)
  {}

  lemma OvertakenMoves(s: State, c: nat, e: Event)
    requires !s.provided && c < |s.calls| && Overtaken(s, c) && (e.StartSwitch? || e.ContextReady? || e.ReconcileReady?)
    ensures var t := Step(s, e);
            !t.provided && c < |t.calls| && Overtaken(t, c) && t.installs == s.installs
  {}

  lemma OvertakenCache(s: State, c: nat, e: Event)
    requires !s.provided && c < |s.calls| && Overtaken(s, c)
    requires e.GetSession? || e.InvalidateSession? || e.LoadSettled? || e.LoadFailed? || e.Provider?
    ensures var t := Step(s, e);
            !t.provided && c < |t.calls| && Overtaken(t, c) && t.installs == s.installs
  {}

  lemma OvertakenStep(s: State, c: nat, e: Event)
    requires !s.provided && c < |s.calls| && Overtaken(s, c) && NeverInstalled(s, c)
    ensures var t := Step(s, e);
            !t.provided && c < |t.calls| && Overtaken(t, c) && NeverInstalled(t, c)
  {
    hide Overtaken, GetSync, Invalidate, SettleLoad, CleanUp, Start, Continue, ReplyStep, Reconcile, A.Step;
    match e
    case StartSwitch(_, _) => OvertakenMoves(s, c, e);
    case ContextReady(_) => OvertakenMoves(s, c, e);
    case ReconcileReady(_) => OvertakenMoves(s, c, e);
    case Replied(d, reply) => OvertakenReply(s, c, d, reply);
    case _ => OvertakenCache(s, c, e);
  }

  lemma {:induction false} OvertakenStays(s: State, c: nat, events: seq<Event>)
    requires !s.provided && c < |s.calls| && Overtaken(s, c) && NeverInstalled(s, c)
    ensures NeverInstalled(Run(s, events), c)
    decreases |events|
  {
    hide Overtaken, NeverInstalled, Step;
    if events != [] {
      OvertakenStep(s, c, events[0]);
      OvertakenStays(Step(s, events[0]), c, events[1..]);
    }
  }

  /** The step invalidates: it is a call for that, or a reply to a posted switch that is unauthorized or ambiguous. */
  predicate InvalidatesNow(s: State, e: Event) {
    Invalidates(e) && (e.Replied? ==> e.call < |s.calls| && s.calls[e.call].phase.Posting?)
  }

  lemma InvalidationOvertakes(s: State, e: Event, c: nat)
    requires Refs(s) && InvalidatesNow(s, e) && c < |s.calls| && NeverInstalled(s, c)
    ensures var t := Step(s, e);
            !t.provided && c < |t.calls| && Overtaken(t, c) && NeverInstalled(t, c)
  {
    assert CallRefs(s, s.calls[c].phase);
  }

  /** Without a provider, a switch begun before an invalidation of any kind, another call's reply included, never installs
      a session, whatever follows. */
  lemma OvertakenNeverInstalls(before: seq<Event>, e: Event, c: nat, after: seq<Event>)
    requires c < |Run(Fresh(false), before).calls| && NeverInstalled(Run(Fresh(false), before), c)
    requires InvalidatesNow(Run(Fresh(false), before), e)
    ensures NeverInstalled(Run(Step(Run(Fresh(false), before), e), after), c)
  {
    hide Overtaken, Refs, Step, InvalidatesNow, NeverInstalled;
    assert Refs(Fresh(false)) by { FreshRefs(); }
    RunRefs(Fresh(false), before);
    var s := Run(Fresh(false), before);
    InvalidationOvertakes(s, e, c);
    OvertakenStays(Step(s, e), c, after);
  }

  lemma FreshRefs() ensures Refs(Fresh(false)) {}

  /** The events that neither begin another switch nor answer call `c`. */
  predicate LeavesPosting(e: Event, c: nat) { !e.StartSwitch? && !(e.Replied? && e.call == c) }

  lemma {:induction false} StillPosting(s: State, c: nat, events: seq<Event>)
    requires s.provided && c < |s.calls| && s.calls[c].phase.Posting?
    requires forall k :: 0 <= k < |events| ==> LeavesPosting(events[k], c)
    ensures var t := Run(s, events);
      t.provided && |t.calls| == |s.calls| && t.calls[c] == s.calls[c] && t.sequence == s.sequence
    decreases |events|
  {
    if events != [] {
      StillPostingStep(s, c, events[0]);
      hide Step;
      StillPosting(Step(s, events[0]), c, events[1..]);
    }
  }

  lemma StillPostingStep(s: State, c: nat, e: Event)
    requires s.provided && c < |s.calls| && s.calls[c].phase.Posting? && LeavesPosting(e, c)
    ensures var t := Step(s, e);
      t.provided && |t.calls| == |s.calls| && t.calls[c] == s.calls[c] && t.sequence == s.sequence
  {
    hide A.Step, A.GetStep, A.ClearStep, A.ReplaceStep;
  }

  /** With a provider, nothing but a newer switch keeps a posted switch from installing: whatever the provider went
      through since, sign-outs included, a reply bound to the request makes its session the provider's. */
  lemma ProviderInstallsRegardless(s: State, c: nat, between: seq<Event>)
    requires Inv(s) && s.provided && c + 1 == |s.calls| && s.calls[c].phase.Posting?
    requires forall k :: 0 <= k < |between| ==> LeavesPosting(between[k], c)
    ensures var reply := Payload(true, true, s.calls[c].organization, s.calls[c].phase.context.member);
      var m := Run(s, between);
      var t := Step(m, Replied(c, reply));
      && t.authority.value == Some(Session(m.nextRef, s.calls[c].organization, s.calls[c].phase.context.member))
      && t.installs == m.installs + [Install(c, t.authority.value.value)]
  {
    StillPosting(s, c, between);
    hide Run;
    assert CallInv(c, s.calls[c]);
  }

  /** So a sign-out during a switch is undone by the switch's reply. */
  lemma SignOutUndone(s: State, c: nat)
    requires Inv(s) && s.provided && c + 1 == |s.calls| && s.calls[c].phase.Posting?
    ensures var reply := Payload(true, true, s.calls[c].organization, s.calls[c].phase.context.member);
      var out := Step(s, InvalidateSession);
      out.authority.value == None && Step(out, Replied(c, reply)).authority.value.Some?
  {
    ProviderInstallsRegardless(s, c, [InvalidateSession]);
    assert Run(s, [InvalidateSession]) == Step(s, InvalidateSession);
  }

  /** The closure variables of the client, and the calls in flight. Each method is the code between two awaits. */
  class Client {
    const provider: A.Authority?<Session>
    var session: Option<Session>
    var pendingSession: Option<nat>
    var sessionGeneration: nat
    var switchSequence: nat
    var loads: seq<Load>
    var calls: seq<Call>
    var installs: seq<Install>
    var nextRef: nat

    ghost function Shared(): set<object> { if provider == null then {} else {provider} }

    ghost function View(): State
      reads this, Shared()
    {
      State(provider != null, if provider == null then A.Empty() else provider.View(), session, pendingSession,
            sessionGeneration, switchSequence, loads, calls, installs, nextRef)
    }

    constructor (provider: A.Authority?<Session>)
      requires provider != null ==> A.Inv(provider.View())
      ensures this.provider == provider && Inv(View()) && View().session == None && View().calls == []
      ensures provider == null ==> View() == Fresh(false)
      ensures provider != null ==> View() == Fresh(true).(authority := provider.View())
    {
      this.provider := provider;
      session, pendingSession, sessionGeneration, switchSequence := None, None, 0, 0;
      loads, calls, installs, nextRef := [], [], [], 0;
    }

    method StartGetSession(aborted: bool) returns (on: Await)
      requires Inv(View())
      modifies this, Shared()
      ensures (View(), on) == GetSync(old(View()), aborted) && Inv(View())
    {
      hide Inv, A.Inv;
      GetKeeps(View(), aborted);
      assert A.Inv(View().authority) by { AuthorityOk(View()); }
      on := Lookup(aborted);
    }

    method DropSession()
      requires Inv(View())
      modifies this, Shared()
      ensures View() == Invalidate(old(View())) && Inv(View())
    {
      hide Inv, A.Inv;
      InvalidateKeeps(View(), None);
      assert A.Inv(View().authority) by { AuthorityOk(View()); }
      Drop();
    }

    method BootstrapSettled(id: nat, loaded: Option<Identity>)
      requires Inv(View()) && id < |loads| && loads[id].status.Running?
      modifies this
      ensures View() == SettleLoad(old(View()), id, loaded) && Inv(View())
    {
      LoadKeeps(View(), id, loaded);
      if loaded.None? || loads[id].generation != sessionGeneration {
        loads := loads[id := loads[id].(status := Failed)];
        return;
      }
      var next := Session(nextRef, loaded.value.organization, loaded.value.member);
      nextRef := nextRef + 1;
      session := Some(next);
      loads := loads[id := loads[id].(status := Fulfilled(next))];
    }

    method BeginSwitch(organization: Id, aborted: bool) returns (call: nat)
      requires Inv(View())
      modifies this, Shared()
      ensures View() == Start(old(View()), organization, aborted) && Inv(View()) && call == |old(calls)|
    {
      hide Inv, A.Inv;
      StartKeeps(View(), organization, aborted);
      assert A.Inv(View().authority) by { AuthorityOk(View()); }
      call := |calls|;
      switchSequence := switchSequence + 1;
      var sequence := switchSequence;
      // The sequence number is taken first; the session lookup does not read it.
      var on := Lookup(aborted);
      calls := calls + [Call(organization, sequence, AwaitContext(on), 0)];
    }

    method Lookup(aborted: bool) returns (on: Await)
      requires A.Inv(View().authority)
      modifies this`pendingSession, this`loads, Shared()
      ensures (View(), on) == GetSync(old(View()), aborted)
    {
      hide A.Inv;
      if provider != null {
        if aborted { return Refused; }
        var waiter := provider.GetSession(false, true);
        return OnProvider(waiter.value);
      }
      if session.Some? { return Cached(session.value); }
      if pendingSession.None? {
        pendingSession := Some(|loads|);
        loads := loads + [Load(sessionGeneration, Running)];
      }
      return OnLoad(pendingSession.value);
    }

    /** The handler that forgets a failed load. */
    method BootstrapFailed(id: nat)
      requires Inv(View()) && id < |loads| && loads[id].status.Failed?
      modifies this`pendingSession
      ensures View() == CleanUp(old(View()), id) && Inv(View())
    {
      hide Inv;
      LoadKeeps(View(), id, None);
      if pendingSession == Some(id) { pendingSession := None; }
    }

    /** What an awaited session has to offer now. */
    method Peek(on: Await) returns (awaited: Awaited)
      ensures awaited == Observe(View(), on)
    {
      match on {
        case Cached(x) => return Got(x);
        case Refused => return Awaited.Rejected;
        case OnProvider(w) =>
          if provider == null || w >= |provider.waiters| { return NotYet; }
          match provider.waiters[w].status {
            case Waiting => return NotYet;
            case Received(x) => return Got(x);
            case Rejected => return Awaited.Rejected;
            case Aborted => return Awaited.Rejected;
          }
        case OnLoad(id) =>
          if id >= |loads| { return NotYet; }
          match loads[id].status {
            case Running => return NotYet;
            case Failed => return Awaited.Rejected;
            case Fulfilled(x) => return Got(x);
          }
      }
    }

    /** The switch goes on once its session is there: it ends, or posts its one request. */
    method ContextReady(c: nat)
      requires Inv(View()) && c < |calls| && calls[c].phase.AwaitContext?
      modifies this`calls
      ensures View() == Continue(old(View()), c) && Inv(View())
    {
      hide Inv, Observe;
      ContinueKeeps(View(), c);
      var awaited := Peek(calls[c].phase.on);
      match awaited {
        case NotYet =>
        case Rejected =>
          calls := calls[c := calls[c].(phase := Done(None, Threw))];
        case Got(context) =>
          if context.organization == calls[c].organization {
            calls := calls[c := calls[c].(phase := Done(Some(context), Threw))];
          } else {
            calls := calls[c := calls[c].(phase := Posting(context), sends := calls[c].sends + 1)];
          }
      }
    }

    /** The reconciliation after an ambiguous reply: the session read back is the result if it is the one asked for, by
        the latest switch; the request is not sent again. */
    method ReconcileReady(c: nat)
      requires Inv(View()) && c < |calls| && calls[c].phase.AwaitReconcile?
      modifies this`calls
      ensures View() == Reconcile(old(View()), c) && Inv(View())
    {
      hide Inv, Observe;
      ReconcileKeeps(View(), c);
      var context := calls[c].phase.context;
      var awaited := Peek(calls[c].phase.on);
      if awaited.NotYet? { return; }
      var result := Threw;
      if awaited.Got? && calls[c].sequence == switchSequence
         && awaited.session.organization == calls[c].organization && awaited.session.member == context.member {
        result := Returned(awaited.session);
      }
      calls := calls[c := calls[c].(phase := Done(Some(context), result))];
    }

    /** The switch reply of a call that is posting: on every path the call ends or goes on to reconcile. */
    method SwitchReplied(c: nat, reply: Reply)
      requires Inv(View()) && c < |calls| && calls[c].phase.Posting?
      modifies this, Shared()
      ensures View() == ReplyStep(old(View()), c, reply) && Inv(View())
    {
      hide Inv, A.Inv, A.GetStep, A.ClearStep, A.ReplaceStep;
      ReplyKeeps(View(), c, reply);
      assert A.Inv(View().authority) by { AuthorityOk(View()); }
      var context := calls[c].phase.context;
      var outcome := Done(Some(context), Threw);
      match reply {
        case Unauthorized =>
          Forget(context);
        case OtherError =>
        case Ambiguous(aborted) =>
          Drop();
          var on := Lookup(aborted);
          outcome := AwaitReconcile(context, on);
        case Payload(wellFormed, active, organization, member) =>
          if wellFormed && active && organization == calls[c].organization && member == context.member
             && calls[c].sequence == switchSequence && (provider != null || session == Some(context)) {
            var next := Session(nextRef, organization, member);
            Adopt(next);
            nextRef := nextRef + 1;
            installs := installs + [Install(c, next)];
            outcome := Done(Some(context), Returned(next));
          }
      }
      calls := calls[c := calls[c].(phase := outcome)];
    }

    method Adopt(next: Session)
      requires A.Inv(View().authority)
      modifies this`session, this`pendingSession, Shared()
      ensures View() == if provider != null then old(View()).(authority := A.ReplaceStep(old(View()).authority, next))
                        else old(View()).(session := Some(next), pending := None)
    {
      hide A.Inv;
      if provider != null { provider.ReplaceSession(next); return; }
      session := Some(next);
      pendingSession := None;
    }

    method Forget(context: Session)
      requires A.Inv(View().authority)
      modifies this`session, this`pendingSession, this`sessionGeneration, Shared()
      ensures View() == Expire(old(View()), context)
    {
      hide A.Inv;
      if provider != null { provider.ClearSession(Some(context)); return; }
      Drop();
    }

    method Drop()
      requires A.Inv(View().authority)
      modifies this`session, this`pendingSession, this`sessionGeneration, Shared()
      ensures View() == Invalidate(old(View())) && A.Inv(View().authority)
    {
      hide A.Inv;
      if provider != null { provider.ClearSession(None); return; }
      sessionGeneration := sessionGeneration + 1;
      session := None;
      pendingSession := None;
    }
  }
}
