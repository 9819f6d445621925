/** Any number of bridge sessions over one signature budget, under every interleaving.

    A session holds its own lock for a whole call; the ledger has a lock of its own. An authorisation is therefore
    three atomic steps, between which other sessions may run: the checks, the reservation, and the recording of the
    sequence number. While a session is between them every other call on it waits, which is a step that changes
    nothing. */
module BridgeRuns {
  import opened Common
  import opened BridgePeer
  import opened BridgeSession

  datatype Progress = Idle | Checked(request: Request) | Reserved(request: Request)

  /** A session, the call that holds its lock, and every payload it has authorised, in order. */
  datatype Slot = Slot(session: Session, progress: Progress, log: seq<AuthorizedPayload>)

  datatype World = World(slots: seq<Slot>, ledger: Ledger)

  datatype Step =
    | Prepare(slot: nat, nonce: Bytes)
    | Attach(slot: nat, child: ProcessIdentity)
    | Close(slot: nat)
    | Begin(slot: nat, request: Request, context: Context, observed: ProcessIdentity)
    | Reserve(slot: nat)
    | Finish(slot: nat)

  predicate ValidStep(c: Crypto, step: Step) { step.Begin? ==> WellFormed(c, step.request) }

  ghost function SlotStep(c: Crypto, a: Slot, l: Ledger, step: Step): (Slot, Ledger)
    requires FixedSizes(c) && ValidSession(a.session) && ValidStep(c, step)
  {
    match a.progress
    case Idle =>
      (match step
       case Prepare(_, nonce) => (a.(session := PrepareSession(c, a.session, nonce).0), l)
       case Attach(_, child) => (a.(session := AttachSession(a.session, child).0), l)
       case Close(_) => (a.(session := a.session.(phase := Closed)), l)
       case Begin(_, r, context, observed) =>
         if a.session.phase != Attached then (a, l)
         else if CheckRequest(c, a.session, r, context, observed).Some?
         then (a.(session := a.session.(phase := Closed)), l)
         else (a.(progress := Checked(r)), l)
       case _ => (a, l))
    case Checked(r) =>
      if !step.Reserve? then (a, l)
      else if l.used < l.max then (a.(progress := Reserved(r)), l.(used := l.used + 1))
      else (a.(session := a.session.(phase := Closed), progress := Idle), l)
    case Reserved(r) =>
      if !step.Finish? then (a, l)
      else (Slot(a.session.(consumed := a.session.consumed + {r.sequence}), Idle, a.log + [PayloadOf(a.session, r)]), l)
  }

  ghost predicate ValidWorld(w: World) {
    ValidLedger(w.ledger) && forall i :: 0 <= i < |w.slots| ==> ValidSession(w.slots[i].session)
  }

  ghost function Next(c: Crypto, w: World, step: Step): (v: World)
    requires FixedSizes(c) && ValidWorld(w) && ValidStep(c, step)
    ensures ValidWorld(v) && |v.slots| == |w.slots|
  {
    if step.slot >= |w.slots| then w
    else
      var (a, l) := SlotStep(c, w.slots[step.slot], w.ledger, step);
      World(w.slots[step.slot := a], l)
  }

  ghost predicate ValidSteps(c: Crypto, steps: seq<Step>) {
    forall k :: 0 <= k < |steps| ==> ValidStep(c, steps[k])
  }

  ghost function Run(c: Crypto, w: World, steps: seq<Step>): (v: World)
    requires FixedSizes(c) && ValidWorld(w) && ValidSteps(c, steps)
    ensures ValidWorld(v) && |v.slots| == |w.slots|
    decreases |steps|
  {
    if steps == [] then w else Run(c, Next(c, w, steps[0]), steps[1..])
  }

  /** New sessions, and a budget that may already be partly used. */
  ghost predicate Initial(w: World) {
    ValidWorld(w) && forall i :: 0 <= i < |w.slots| ==>
      w.slots[i].session.phase == New && w.slots[i].session.consumed == {} && w.slots[i].progress == Idle
      && w.slots[i].log == []
  }

  function UpTo(n: nat): (s: set<nat>)
    ensures forall k :: k in s <==> 1 <= k <= n
  {
    if n == 0 then {} else UpTo(n - 1) + {n}
  }

  lemma {:induction false} UpToSize(n: nat)
    ensures |UpTo(n)| == n
  {
    if n > 0 { UpToSize(n - 1); }
  }

  /** What every step keeps about one session: its log carries 1, 2, ..., n without gap or repeat, exactly those
      numbers are consumed, and a call in progress is for number n + 1. */
  ghost predicate SlotInv(a: Slot) {
    && ValidSession(a.session)
    && a.session.consumed == UpTo(|a.log|)
    && (forall k :: 0 <= k < |a.log| ==> a.log[k].sequence == k + 1 && a.log[k].sessionID == a.session.id)
    && (a.progress != Idle ==> a.session.phase == Attached && a.progress.request.sequence == |a.log| + 1)
  }

  /** Signatures taken from the budget by one session. */
  function Taken(a: Slot): nat { |a.log| + if a.progress.Reserved? then 1 else 0 }

  function Total(slots: seq<Slot>): nat { if slots == [] then 0 else Taken(slots[0]) + Total(slots[1..]) }

  lemma {:induction false} TotalUpdate(slots: seq<Slot>, i: nat, a: Slot)
    requires i < |slots|
    ensures Total(slots[i := a]) == Total(slots) - Taken(slots[i]) + Taken(a)
  {
    if i == 0 {
      assert slots[i := a][1..] == slots[1..];
    } else {
      TotalUpdate(slots[1..], i - 1, a);
      assert slots[i := a][1..] == slots[1..][i - 1 := a];
    }
  }

  lemma {:induction false} TotalAtLeast(slots: seq<Slot>, i: nat)
    requires i < |slots|
    ensures Taken(slots[i]) <= Total(slots)
  {
    if i > 0 { TotalAtLeast(slots[1..], i - 1); }
  }

  /** The budget has grown by exactly what the sessions took. */
  ghost predicate WorldInv(w: World, base: nat) {
    && ValidWorld(w) && (forall i :: 0 <= i < |w.slots| ==> SlotInv(w.slots[i]))
    && w.ledger.used == base + Total(w.slots)
  }

  lemma SlotStepKeeps(c: Crypto, a: Slot, l: Ledger, step: Step)
    requires FixedSizes(c) && SlotInv(a) && ValidLedger(l) && ValidStep(c, step)
    ensures var (b, m) := SlotStep(c, a, l, step);
            && SlotInv(b) && ValidLedger(m) && m.max == l.max && m.used - l.used == Taken(b) - Taken(a)
            && a.log <= b.log && b.session.id == a.session.id
            && (a.session.phase == Closed ==> b.session.phase == Closed && b.log == a.log)
  {
    hide CheckRequest, UpTo, IsUUID, Lower, Bound, EncodablePeer, WellFormed, PayloadOf;
    UpToSize(|a.log|);
    if step.Begin? && a.progress.Idle? {
      CheckedIsNext(c, a.session, step.request, step.context, step.observed);
    }
    if step.Finish? && a.progress.Reserved? { FinishKeeps(a); }
  }

  lemma CheckedIsNext(c: Crypto, s: Session, r: Request, context: Context, observed: ProcessIdentity)
    requires FixedSizes(c) && ValidSession(s) && WellFormed(c, r)
    ensures CheckRequest(c, s, r, context, observed) == None ==> r.sequence == |s.consumed| + 1
  {}

  lemma FinishKeeps(a: Slot)
    requires SlotInv(a) && a.progress.Reserved?
    ensures var r := a.progress.request;
            SlotInv(Slot(a.session.(consumed := a.session.consumed + {r.sequence}), Idle, a.log + [PayloadOf(a.session, r)]))
  {
    var log := a.log + [PayloadOf(a.session, a.progress.request)];
    assert UpTo(|log|) == UpTo(|a.log|) + {|a.log| + 1};
  }

  lemma NextKeeps(c: Crypto, w: World, base: nat, step: Step)
    requires FixedSizes(c) && WorldInv(w, base) && ValidStep(c, step)
    ensures WorldInv(Next(c, w, step), base) && Next(c, w, step).ledger.max == w.ledger.max
    ensures |Next(c, w, step).slots| == |w.slots|
    ensures forall i :: 0 <= i < |w.slots| ==>
      && w.slots[i].log <= Next(c, w, step).slots[i].log
      && (w.slots[i].session.phase == Closed ==>
            Next(c, w, step).slots[i].session.phase == Closed && Next(c, w, step).slots[i].log == w.slots[i].log)
  {
    hide SlotInv, SlotStep, ValidSession, Total, Taken;
    if step.slot < |w.slots| {
      var a := w.slots[step.slot];
      SlotStepKeeps(c, a, w.ledger, step);
      TotalUpdate(w.slots, step.slot, SlotStep(c, a, w.ledger, step).0);
    }
  }

  lemma InitialInv(w: World)
    requires Initial(w)
    ensures WorldInv(w, w.ledger.used)
  {
    InitialTotal(w.slots);
    assert UpTo(0) == {};
  }

  lemma {:induction false} InitialTotal(slots: seq<Slot>)
    requires forall i :: 0 <= i < |slots| ==> slots[i].log == [] && slots[i].progress == Idle
    ensures Total(slots) == 0
  {
    if slots != [] { InitialTotal(slots[1..]); }
  }

  lemma {:induction false} RunKeeps(c: Crypto, w: World, base: nat, steps: seq<Step>)
    requires FixedSizes(c) && WorldInv(w, base) && ValidSteps(c, steps)
    ensures WorldInv(Run(c, w, steps), base) && Run(c, w, steps).ledger.max == w.ledger.max
    ensures |Run(c, w, steps).slots| == |w.slots|
    ensures forall i :: 0 <= i < |w.slots| ==>
      && w.slots[i].log <= Run(c, w, steps).slots[i].log
      && (w.slots[i].session.phase == Closed ==>
            Run(c, w, steps).slots[i].session.phase == Closed && Run(c, w, steps).slots[i].log == w.slots[i].log)
    decreases |steps|
  {
    hide SlotInv, WorldInv, Next, ValidSession;
    InvValid(w, base);
    if steps != [] {
      NextKeeps(c, w, base, steps[0]);
      RunKeeps(c, Next(c, w, steps[0]), base, steps[1..]);
    }
  }

  lemma InvValid(w: World, base: nat)
    requires WorldInv(w, base)
    ensures ValidWorld(w)
  {}

  /** Sequence numbers, consumption and conservation over every run of any number of sessions. */
  lemma RunsAreExact(c: Crypto, w: World, steps: seq<Step>)
    requires FixedSizes(c) && Initial(w) && ValidSteps(c, steps)
    ensures var v := Run(c, w, steps);
      && |v.slots| == |w.slots|
      && (forall i, k :: 0 <= i < |v.slots| && 0 <= k < |v.slots[i].log| ==> v.slots[i].log[k].sequence == k + 1)
      && (forall i :: 0 <= i < |v.slots| ==> v.slots[i].session.consumed == UpTo(|v.slots[i].log|))
      && v.ledger.used == w.ledger.used + Total(v.slots)
      && v.ledger.used <= v.ledger.max == w.ledger.max <= MAX_REQUESTS
  {
    InitialInv(w);
    RunKeeps(c, w, w.ledger.used, steps);
  }

  /** A request rejected while the session is attached is the last thing that session ever decides. */
  lemma RejectionIsFinal(c: Crypto, w: World, base: nat, i: nat, r: Request, context: Context, observed: ProcessIdentity,
                         steps: seq<Step>)
    requires FixedSizes(c) && WorldInv(w, base) && WellFormed(c, r) && ValidSteps(c, steps)
    requires i < |w.slots| && w.slots[i].progress == Idle && w.slots[i].session.phase == Attached
    requires CheckRequest(c, w.slots[i].session, r, context, observed).Some?
    ensures var rejected := Next(c, w, Begin(i, r, context, observed));
            && WorldInv(rejected, base)
            && Run(c, rejected, steps).slots[i].session.phase == Closed
            && Run(c, rejected, steps).slots[i].log == w.slots[i].log
  {
    var rejected := Next(c, w, Begin(i, r, context, observed));
    NextKeeps(c, w, base, Begin(i, r, context, observed));
    RunKeeps(c, rejected, base, steps);
  }

  /** A reservation that finds the budget exhausted consumes no number, takes nothing, and ends the session. */
  lemma ExhaustionConsumesNothing(c: Crypto, w: World, base: nat, i: nat, steps: seq<Step>)
    requires FixedSizes(c) && WorldInv(w, base) && ValidSteps(c, steps)
    requires i < |w.slots| && w.slots[i].progress.Checked? && w.ledger.used == w.ledger.max
    ensures var after := Next(c, w, Reserve(i));
            && WorldInv(after, base)
            && after.ledger == w.ledger && after.slots[i].session.consumed == w.slots[i].session.consumed
            && Run(c, after, steps).slots[i].log == w.slots[i].log
  {
    NextKeeps(c, w, base, Reserve(i));
    RunKeeps(c, Next(c, w, Reserve(i)), base, steps);
  }

  /** The three steps with nothing in between are the call of the session object. */
  lemma UninterruptedCall(c: Crypto, w: World, base: nat, i: nat, r: Request, context: Context, observed: ProcessIdentity)
    requires FixedSizes(c) && WorldInv(w, base) && WellFormed(c, r)
    requires i < |w.slots| && w.slots[i].progress == Idle
    ensures var v := Run(c, w, [Begin(i, r, context, observed), Reserve(i), Finish(i)]);
            var (s, l, outcome) := Authorize(c, w.slots[i].session, w.ledger, r, context, observed);
            && v.slots[i].session == s && v.slots[i].progress == Idle && v.ledger == l
            && v.slots[i].log == w.slots[i].log + if outcome.Allowed? then [outcome.value] else []
  {
    hide CheckRequest, ValidSession, SlotInv, PayloadOf;
    var steps := [Begin(i, r, context, observed), Reserve(i), Finish(i)];
    RunThree(c, w, steps[0], steps[1], steps[2]);
    assert steps == [steps[0], steps[1], steps[2]];
  }

  lemma RunThree(c: Crypto, w: World, s0: Step, s1: Step, s2: Step)
    requires FixedSizes(c) && ValidWorld(w) && ValidSteps(c, [s0, s1, s2])
    requires ValidStep(c, s0) && ValidStep(c, s1) && ValidStep(c, s2)
    ensures Run(c, w, [s0, s1, s2]) == Next(c, Next(c, Next(c, w, s0), s1), s2)
  {
    hide Next, ValidSession, ValidStep;
    var w1 := Next(c, w, s0);
    var w2 := Next(c, w1, s1);
    assert [s0, s1, s2][1..] == [s1, s2] && [s1, s2][1..] == [s2] && [s2][1..] == [];
    assert Run(c, w2, [s2]) == Next(c, w2, s2);
    assert Run(c, w1, [s1, s2]) == Run(c, w2, [s2]);
  }

  /** In every reachable world an attached session with budget left can make its next request for any payload,
      and with the peer unchanged that request is accepted and yields that payload. */
  lemma NextRequestAccepted(c: Crypto, w: World, base: nat, i: nat, r: Request, payload: Bytes)
    requires FixedSizes(c) && WorldInv(w, base) && i < |w.slots| && w.ledger.used < w.ledger.max
    requires w.slots[i].progress == Idle && w.slots[i].session.phase == Attached
    ensures ValidSequence(|w.slots[i].log| + 1) && |w.slots[i].log| + 1 !in w.slots[i].session.consumed
    ensures var s := w.slots[i].session;
            && WellFormed(c, r) && r.sequence == |w.slots[i].log| + 1 && r.payload == payload
            && r.sessionID == s.id && Authentic(c, s.key, r, s.id, s.peer)
            ==>
            var (after, l, outcome) := Authorize(c, s, w.ledger, r, s.peer.context, s.peer.identity);
            if AllObserved(s.peer.identity.ancestry)
            then outcome.Allowed? && outcome.value.payload == payload && outcome.value.sequence == |w.slots[i].log| + 1
            else outcome == Denied(ProcessIdentityChanged)
  {
    TotalAtLeast(w.slots, i);
    UpToSize(|w.slots[i].log|);
    assert SlotInv(w.slots[i]);
  }

  /** Exactly which requests an attached session lets through, and what a refusal leaves behind. */
  lemma AuthorizedExactly(c: Crypto, a: Slot, l: Ledger, r: Request, context: Context, observed: ProcessIdentity)
    requires FixedSizes(c) && SlotInv(a) && WellFormed(c, r)
    ensures var s := a.session;
      var (after, ledger, outcome) := Authorize(c, s, l, r, context, observed);
      && (outcome.Allowed? <==>
            && s.phase == Attached && r.sequence == |a.log| + 1 && r.sessionID == s.id
            && r.proof == ProofFor(c, s.key, r, s.peer)
            && context == s.peer.context && observed == s.peer.identity && AllObserved(s.peer.identity.ancestry)
            && l.used < l.max)
      && (outcome.Allowed? ==>
            && outcome.value.payload == r.payload && outcome.value.sequence == r.sequence
            && outcome.value.payloadDigest == c.sha256(r.payload) && outcome.value.context == context
            && outcome.value.sessionID == s.id && outcome.value.processHash == s.peer.processHash
            && after.consumed == UpTo(|a.log| + 1) && after.phase == Attached && ledger.used == l.used + 1)
      && (outcome.Denied? ==>
            && ledger == l && after.consumed == s.consumed
            && (s.phase == Attached ==> after.phase == Closed) && (s.phase != Attached ==> after == s))
  {
    hide IsUUID, ProofFor, UpTo, EncodablePeer, Bound;
    UpToSize(|a.log|);
  }

  // Where the authorised payloads come from.

  /** The step brings a request that is made for this session and proved by its key, from the peer as it was bound. */
  ghost predicate Earns(c: Crypto, s: Session, step: Step)
    requires FixedSizes(c) && ValidSession(s) && ValidStep(c, step)
  {
    && step.Begin? && step.request.sessionID == s.id && step.request.proof == ProofFor(c, s.key, step.request, s.peer)
    && step.context == s.peer.context && step.observed == s.peer.identity && AllObserved(s.peer.identity.ancestry)
  }

  ghost predicate EarnedAt(c: Crypto, s: Session, i: nat, steps: seq<Step>, p: AuthorizedPayload, j: nat)
    requires FixedSizes(c) && ValidSession(s) && ValidSteps(c, steps) && j < |steps|
  {
    steps[j].slot == i && Earns(c, s, steps[j]) && PayloadOf(s, steps[j].request) == p
  }

  ghost predicate Earned(c: Crypto, s: Session, i: nat, steps: seq<Step>, p: AuthorizedPayload)
    requires FixedSizes(c) && ValidSession(s) && ValidSteps(c, steps)
  {
    exists j :: 0 <= j < |steps| && EarnedAt(c, s, i, steps, p, j)
  }

  /** Slot `i` is still the session `s`, and all it has authorised or is about to was earned by steps of the run. */
  ghost predicate SlotEarned(c: Crypto, s: Session, a: Slot, i: nat, steps: seq<Step>)
    requires FixedSizes(c) && ValidSession(s) && ValidSteps(c, steps)
  {
    && a.session.id == s.id && a.session.key == s.key && a.session.peer == s.peer
    && (forall k :: 0 <= k < |a.log| ==> Earned(c, s, i, steps, a.log[k]))
    && (a.progress != Idle ==> Earned(c, s, i, steps, PayloadOf(s, a.progress.request)))
  }

  lemma EarnedOn(c: Crypto, s: Session, i: nat, steps: seq<Step>, step: Step, p: AuthorizedPayload)
    requires FixedSizes(c) && ValidSession(s) && ValidSteps(c, steps) && ValidStep(c, step)
    requires ValidSteps(c, steps + [step]) && Earned(c, s, i, steps, p)
    ensures Earned(c, s, i, steps + [step], p)
  {
    hide Earns, PayloadOf;
    var j :| 0 <= j < |steps| && EarnedAt(c, s, i, steps, p, j);
    assert EarnedAt(c, s, i, steps + [step], p, j);
  }

  /** The checks pass only for what is earned. */
  lemma CheckedIsEarned(c: Crypto, s: Session, step: Step)
    requires FixedSizes(c) && ValidSession(s) && ValidStep(c, step) && step.Begin?
    requires CheckRequest(c, s, step.request, step.context, step.observed) == None
    ensures Earns(c, s, step)
  {
    hide ProofFor, IsUUID;
  }

  lemma SlotEarnedOn(c: Crypto, s: Session, a: Slot, l: Ledger, i: nat, steps: seq<Step>, step: Step)
    requires FixedSizes(c) && ValidSession(s) && ValidSession(a.session) && ValidSteps(c, steps) && ValidStep(c, step)
    requires ValidSteps(c, steps + [step]) && SlotEarned(c, s, a, i, steps)
    ensures SlotEarned(c, s, a, i, steps + [step])
    ensures step.slot == i ==> SlotEarned(c, s, SlotStep(c, a, l, step).0, i, steps + [step])
  {
    hide CheckRequest, Earns, Earned, ValidSteps, ValidSession, WellFormed, ProofFor;
    forall k | 0 <= k < |a.log| ensures Earned(c, s, i, steps + [step], a.log[k]) {
      EarnedOn(c, s, i, steps, step, a.log[k]);
    }
    if a.progress != Idle { EarnedOn(c, s, i, steps, step, PayloadOf(s, a.progress.request)); }
    if step.slot == i && step.Begin? && a.progress.Idle? {
      BeginIsEarned(c, s, a.session, i, steps, step);
    }
  }

  lemma BeginIsEarned(c: Crypto, s: Session, now: Session, i: nat, steps: seq<Step>, step: Step)
    requires FixedSizes(c) && ValidSession(s) && ValidSession(now) && ValidSteps(c, steps) && ValidStep(c, step)
    requires ValidSteps(c, steps + [step]) && step.slot == i && step.Begin?
    requires now.id == s.id && now.key == s.key && now.peer == s.peer
    ensures CheckRequest(c, now, step.request, step.context, step.observed) == None ==>
              Earned(c, s, i, steps + [step], PayloadOf(s, step.request))
  {
    hide CheckRequest, PayloadOf, ProofFor, IsUUID;
    if CheckRequest(c, now, step.request, step.context, step.observed) == None {
      CheckedIsEarned(c, now, step);
      assert EarnedAt(c, s, i, steps + [step], PayloadOf(s, step.request), |steps|);
    }
  }

  lemma {:induction false} RunOn(c: Crypto, w: World, steps: seq<Step>, step: Step)
    requires FixedSizes(c) && ValidWorld(w) && ValidSteps(c, steps) && ValidStep(c, step) && ValidSteps(c, steps + [step])
    ensures Run(c, w, steps + [step]) == Next(c, Run(c, w, steps), step)
    decreases |steps|
  {
    hide Next, ValidWorld;
    var longer := steps + [step];
    if steps == [] {
      assert longer[1..] == [] && longer[0] == step;
    } else {
      assert longer[0] == steps[0] && longer[1..] == steps[1..] + [step];
      RunOn(c, Next(c, w, steps[0]), steps[1..], step);
    }
  }

  /** In every run, every payload a session has authorised was brought by a step of that run whose request was made for
      this session and proved by its key, and the peer then was exactly the one bound at the start. */
  lemma {:induction false} PayloadsAreEarned(c: Crypto, w: World, steps: seq<Step>, i: nat)
    requires FixedSizes(c) && Initial(w) && ValidSteps(c, steps) && i < |w.slots|
    ensures ValidSession(w.slots[i].session)
    ensures SlotEarned(c, w.slots[i].session, Run(c, w, steps).slots[i], i, steps)
    decreases |steps|
  {
    hide SlotEarned, ValidSession, SlotStep;
    if steps == [] {
      NothingEarned(c, w, i);
    } else {
      var n := |steps| - 1;
      var shorter, step := steps[..n], steps[n];
      assert steps == shorter + [step];
      assert ValidSteps(c, shorter) && ValidStep(c, step);
      PayloadsAreEarned(c, w, shorter, i);
      RunOn(c, w, shorter, step);
      var v := Run(c, w, shorter);
      SlotEarnedOn(c, w.slots[i].session, v.slots[i], v.ledger, i, shorter, step);
    }
  }

  lemma NothingEarned(c: Crypto, w: World, i: nat)
    requires FixedSizes(c) && Initial(w) && i < |w.slots|
    ensures ValidSession(w.slots[i].session) && SlotEarned(c, w.slots[i].session, w.slots[i], i, [])
  {}

  /** Why an attached session refuses, in the order of the checks: another session's request, a number already used, a
      number out of turn, another or a changed peer, a wrong proof, an exhausted budget. */
  lemma RefusedExactly(c: Crypto, a: Slot, l: Ledger, r: Request, context: Context, observed: ProcessIdentity)
    requires FixedSizes(c) && SlotInv(a) && WellFormed(c, r)
    ensures var s := a.session;
      var (_, _, outcome) := Authorize(c, s, l, r, context, observed);
      var samePeer := context == s.peer.context && observed == s.peer.identity && AllObserved(s.peer.identity.ancestry);
      && (s.phase == Closed ==> outcome == Denied(SessionClosed))
      && (s.phase == New || s.phase == Prepared ==> outcome == Denied(InvalidSessionState))
      && (s.phase == Attached ==>
            if r.sessionID != s.id then outcome == Denied(RequestAuthenticationFailed)
            else if r.sequence <= |a.log| then outcome == Denied(RequestReplay)
            else if r.sequence > |a.log| + 1 then outcome == Denied(RequestSequenceMismatch)
            else if !samePeer then outcome == Denied(PeerIdentityMismatch) || outcome == Denied(ProcessIdentityChanged)
            else if r.proof != ProofFor(c, s.key, r, s.peer) then outcome == Denied(RequestAuthenticationFailed)
            else l.used >= l.max ==> outcome == Denied(BudgetExhausted))
  {
    hide IsUUID, ProofFor, UpTo, EncodablePeer, Bound, Revalidate;
    UpToSize(|a.log|);
    assert Bound(a.session.peer);
    RevalidationErrors(a.session.peer, context, observed);
  }

  // How a session comes to be attached.

  /** Step `p` prepares slot `i` with a nonce of legal length and this digest, and the later step `q` attaches a child that
      the policy allows. */
  ghost predicate LaunchedAt(c: Crypto, policy: Policy, i: nat, steps: seq<Step>, digest: Option<Bytes>, p: int, q: int) {
    && 0 <= p < q < |steps|
    && PreparedAt(c, i, steps, digest, p)
    && steps[q].Attach? && steps[q].slot == i && policy(steps[q].child)
  }

  ghost predicate PreparedAt(c: Crypto, i: nat, steps: seq<Step>, digest: Option<Bytes>, p: int) {
    && 0 <= p < |steps| && steps[p].Prepare? && steps[p].slot == i && 16 <= |steps[p].nonce| <= 64
    && digest == Some(c.sha256(steps[p].nonce))
  }

  ghost predicate Launched(c: Crypto, policy: Policy, i: nat, steps: seq<Step>, digest: Option<Bytes>) {
    exists p, q :: LaunchedAt(c, policy, i, steps, digest, p, q)
  }

  ghost predicate SlotLaunched(c: Crypto, policy: Policy, a: Slot, i: nat, steps: seq<Step>) {
    && a.session.childPolicy == policy
    && (a.session.phase == New || a.session.phase == Prepared ==> a.log == [] && a.progress == Idle)
    && (a.session.phase == Prepared ==> exists p :: PreparedAt(c, i, steps, a.session.nonceDigest, p))
    && (a.session.phase == Attached || a.log != [] || a.progress != Idle ==>
          Launched(c, policy, i, steps, a.session.nonceDigest))
  }

  lemma LaunchedOn(c: Crypto, policy: Policy, i: nat, steps: seq<Step>, step: Step, digest: Option<Bytes>)
    ensures Launched(c, policy, i, steps, digest) ==> Launched(c, policy, i, steps + [step], digest)
    ensures (exists p :: PreparedAt(c, i, steps, digest, p)) ==> exists p :: PreparedAt(c, i, steps + [step], digest, p)
    ensures step.slot == i && step.Prepare? && 16 <= |step.nonce| <= 64 ==>
              exists p :: PreparedAt(c, i, steps + [step], Some(c.sha256(step.nonce)), p)
    ensures step.slot == i && step.Attach? && policy(step.child) && (exists p :: PreparedAt(c, i, steps, digest, p)) ==>
              Launched(c, policy, i, steps + [step], digest)
  {
    var longer := steps + [step];
    assert longer[|steps|] == step;
    if Launched(c, policy, i, steps, digest) {
      var p, q :| LaunchedAt(c, policy, i, steps, digest, p, q);
      assert LaunchedAt(c, policy, i, longer, digest, p, q);
    }
    if exists p :: PreparedAt(c, i, steps, digest, p) {
      var p :| PreparedAt(c, i, steps, digest, p);
      assert PreparedAt(c, i, longer, digest, p);
      if step.slot == i && step.Attach? && policy(step.child) {
        assert LaunchedAt(c, policy, i, longer, digest, p, |steps|);
      }
    }
    if step.slot == i && step.Prepare? && 16 <= |step.nonce| <= 64 {
      assert PreparedAt(c, i, longer, Some(c.sha256(step.nonce)), |steps|);
    }
  }

  lemma SlotLaunchedOn(c: Crypto, policy: Policy, a: Slot, l: Ledger, i: nat, steps: seq<Step>, step: Step)
    requires FixedSizes(c) && ValidSession(a.session) && ValidStep(c, step) && SlotLaunched(c, policy, a, i, steps)
    ensures SlotLaunched(c, policy, a, i, steps + [step])
    ensures step.slot == i ==> SlotLaunched(c, policy, SlotStep(c, a, l, step).0, i, steps + [step])
  {
    hide CheckRequest, Launched, PreparedAt, ValidSession, WellFormed, PayloadOf;
    LaunchedOn(c, policy, i, steps, step, a.session.nonceDigest);
  }

  /** In every run, a session that is attached or has authorised anything was first prepared with a nonce of 16 to 64
      bytes, whose digest is the stored one, and then attached to a child that its policy allows. */
  lemma {:induction false} AttachedByPolicy(c: Crypto, w: World, steps: seq<Step>, i: nat)
    requires FixedSizes(c) && Initial(w) && ValidSteps(c, steps) && i < |w.slots|
    ensures SlotLaunched(c, w.slots[i].session.childPolicy, Run(c, w, steps).slots[i], i, steps)
    decreases |steps|
  {
    hide SlotLaunched, ValidSession, SlotStep;
    if steps == [] {
      NothingLaunched(c, w, i);
    } else {
      var n := |steps| - 1;
      var shorter, step := steps[..n], steps[n];
      assert steps == shorter + [step];
      assert ValidSteps(c, shorter) && ValidStep(c, step);
      AttachedByPolicy(c, w, shorter, i);
      RunOn(c, w, shorter, step);
      var v := Run(c, w, shorter);
      SlotLaunchedOn(c, w.slots[i].session.childPolicy, v.slots[i], v.ledger, i, shorter, step);
    }
  }

  lemma NothingLaunched(c: Crypto, w: World, i: nat)
    requires Initial(w) && i < |w.slots|
    ensures SlotLaunched(c, w.slots[i].session.childPolicy, w.slots[i], i, [])
  {}

  lemma RunTwo(c: Crypto, w: World, s0: Step, s1: Step)
    requires FixedSizes(c) && ValidWorld(w) && ValidSteps(c, [s0, s1]) && ValidStep(c, s0) && ValidStep(c, s1)
    ensures Run(c, w, [s0, s1]) == Next(c, Next(c, w, s0), s1)
  {
    hide Next, ValidWorld;
    var v := Next(c, w, s0);
    assert [s0, s1][1..] == [s1] && [s1][1..] == [];
    assert Run(c, v, [s1]) == Next(c, v, s1);
  }

  /** Conversely a new session, prepared with such a nonce and given a child, is attached if the policy allows the child;
      if not, it is closed, and it stays closed and authorises nothing whatever follows. */
  lemma LaunchExactly(c: Crypto, w: World, base: nat, i: nat, nonce: Bytes, child: ProcessIdentity, steps: seq<Step>)
    requires FixedSizes(c) && WorldInv(w, base) && i < |w.slots| && ValidSteps(c, steps)
    requires w.slots[i].progress == Idle && w.slots[i].session.phase == New && 16 <= |nonce| <= 64
    ensures ValidWorld(w) && ValidSteps(c, [Prepare(i, nonce), Attach(i, child)])
    ensures var v := Run(c, w, [Prepare(i, nonce), Attach(i, child)]);
      && v.slots[i].session.nonceDigest == Some(c.sha256(nonce)) && WorldInv(v, base)
      && (w.slots[i].session.childPolicy(child) ==> v.slots[i].session.phase == Attached)
      && (!w.slots[i].session.childPolicy(child) ==>
            && v.slots[i].session.phase == Closed && Run(c, v, steps).slots[i].session.phase == Closed
            && Run(c, v, steps).slots[i].log == v.slots[i].log)
  {
    hide WorldInv, ValidSession, SlotInv;
    InvValid(w, base);
    var s0, s1 := Prepare(i, nonce), Attach(i, child);
    RunTwo(c, w, s0, s1);
    NextKeeps(c, w, base, s0);
    var v := Next(c, w, s0);
    assert v.slots[i].session.phase == Prepared && v.slots[i].progress == Idle;
    assert v.slots[i].session.childPolicy == w.slots[i].session.childPolicy;
    NextKeeps(c, v, base, s1);
    RunKeeps(c, Next(c, v, s1), base, steps);
  }

  /** A nonce of another length, and any preparation or attachment out of turn, changes nothing. */
  lemma OutOfTurn(c: Crypto, a: Slot, l: Ledger, step: Step)
    requires FixedSizes(c) && ValidSession(a.session) && ValidStep(c, step)
    requires || (step.Prepare? && (a.session.phase != New || |step.nonce| < 16 || |step.nonce| > 64))
             || (step.Attach? && a.session.phase != Prepared)
    ensures SlotStep(c, a, l, step) == (a, l)
  {}
}
