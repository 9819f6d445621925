/** The shared session authority of the console: one cached session, at most one load that may still fill it, and a
    generation that every effective invalidation advances.

    A promise callback is an atomic step that the environment schedules: a load's callback (`Settle`), the handler
    that forgets a failed load (`CleanUp`), and the reactions of the getters that wait (`Deliver`, `Abort`). They
    come in any order, with any number of calls in between. Sessions are compared by identity, so `V` stands for
    references. */
module SessionAuthority {
  import opened Common

  datatype LoadStatus<V> = Running | Fulfilled(value: V) | Failed

  /** One call of the loader and the generation it started in. */
  datatype Load<V> = Load(generation: nat, status: LoadStatus<V>)

  datatype WaitStatus<V> = Waiting | Received(value: V) | Rejected | Aborted

  /** One successful call of `get`: the load it waits for, or none if it was answered from the cache. */
  datatype Waiter<V> = Waiter(load: Option<nat>, signal: bool, status: WaitStatus<V>)

  /** How the cached value got there. */
  datatype Source = FromReplace | FromLoad(load: nat)

  datatype State<V> = State(
    value: Option<V>, source: Source, pending: Option<nat>, generation: nat,
    loads: seq<Load<V>>, waiters: seq<Waiter<V>>)

  datatype Event<V> =
    | Get(aborted: bool, signal: bool)
    | Clear(expected: Option<V>)
    | Replace(next: V)
    | Settle(load: nat, loaded: Option<V>)
    | CleanUp(load: nat)
    | Deliver(waiter: nat)
    | Abort(waiter: nat)

  function Empty<V>(): State<V> { State(None, FromReplace, None, 0, [], []) }

  function GetStep<V>(s: State<V>, aborted: bool, signal: bool): State<V> {
    if aborted then s
    else if s.value.Some? then s.(waiters := s.waiters + [Waiter(None, signal, Received(s.value.value))])
    else
      var started := if s.pending.Some? then s
                     else s.(pending := Some(|s.loads|), loads := s.loads + [Load(s.generation, Running)]);
      started.(waiters := s.waiters + [Waiter(started.pending, signal, Waiting)])
  }

  function ClearStep<V(==)>(s: State<V>, expected: Option<V>): State<V> {
    if expected.Some? && s.value != expected then s
    else s.(generation := s.generation + 1, value := None, pending := None)
  }

  function ReplaceStep<V>(s: State<V>, next: V): State<V> {
    s.(generation := s.generation + 1, value := Some(next), source := FromReplace, pending := None)
  }

  function SettleStep<V>(s: State<V>, id: nat, loaded: Option<V>): State<V> {
    if id >= |s.loads| || !s.loads[id].status.Running? then s
    else if loaded.None? || s.generation != s.loads[id].generation
    then s.(loads := s.loads[id := s.loads[id].(status := Failed)])
    else s.(loads := s.loads[id := s.loads[id].(status := Fulfilled(loaded.value))],
            value := loaded, source := FromLoad(id),
            pending := if s.pending == Some(id) then None else s.pending)
  }

  function CleanUpStep<V>(s: State<V>, id: nat): State<V> {
    if id < |s.loads| && s.loads[id].status.Failed? && s.pending == Some(id) then s.(pending := None) else s
  }

  function DeliverStep<V>(s: State<V>, w: nat): State<V> {
    if w < |s.waiters| && s.waiters[w].status.Waiting? && s.waiters[w].load.Some? && s.waiters[w].load.value < |s.loads|
    then
      match s.loads[s.waiters[w].load.value].status
      case Running => s
      case Fulfilled(v) => s.(waiters := s.waiters[w := s.waiters[w].(status := Received(v))])
      case Failed => s.(waiters := s.waiters[w := s.waiters[w].(status := Rejected)])
    else s
  }

  function AbortStep<V>(s: State<V>, w: nat): State<V> {
    if w < |s.waiters| && s.waiters[w].signal && s.waiters[w].status.Waiting?
    then s.(waiters := s.waiters[w := s.waiters[w].(status := Aborted)])
    else s
  }

  function Step<V(==)>(s: State<V>, e: Event<V>): State<V> {
    match e
    case Get(aborted, signal) => GetStep(s, aborted, signal)
    case Clear(expected) => ClearStep(s, expected)
    case Replace(next) => ReplaceStep(s, next)
    case Settle(id, loaded) => SettleStep(s, id, loaded)
    case CleanUp(id) => CleanUpStep(s, id)
    case Deliver(w) => DeliverStep(s, w)
    case Abort(w) => AbortStep(s, w)
  }

  function Run<V(==)>(s: State<V>, events: seq<Event<V>>): State<V>
    decreases |events|
  {
    if events == [] then s else Run(Step(s, events[0]), events[1..])
  }

  /** What holds between any two steps. */
  ghost predicate Inv<V>(s: State<V>) {
    && (s.value.Some? ==> s.pending.None?)
    && (s.pending.Some? ==>
          s.pending.value < |s.loads| && s.loads[s.pending.value].generation == s.generation
          && !s.loads[s.pending.value].status.Fulfilled?)
    && (forall id :: 0 <= id < |s.loads| ==> s.loads[id].generation <= s.generation)
    // A load of the current generation that is still running is the pending one,
    && (forall id :: 0 <= id < |s.loads| && s.loads[id].generation == s.generation && s.loads[id].status.Running? ==>
          s.pending == Some(id))
    // and one that fulfilled is the cached value,
    && (forall id :: 0 <= id < |s.loads| && s.loads[id].generation == s.generation && s.loads[id].status.Fulfilled? ==>
          s.value == Some(s.loads[id].status.value) && s.source == FromLoad(id))
    // which comes from nowhere else.
    && (s.value.Some? && s.source.FromLoad? ==>
          s.source.load < |s.loads| && s.loads[s.source.load] == Load(s.generation, Fulfilled(s.value.value)))
    && (forall w :: 0 <= w < |s.waiters| ==> WaiterInv(s, s.waiters[w]))
  }

  ghost predicate WaiterInv<V>(s: State<V>, w: Waiter<V>) {
    && (w.load.Some? ==> w.load.value < |s.loads|)
    && (w.load.Some? && w.status.Received? ==> s.loads[w.load.value].status == Fulfilled(w.status.value))
    && (w.load.None? ==> w.status.Received?)
  }

  /** A load keeps its generation, and once settled its outcome. */
  ghost predicate Extends<V>(s: State<V>, t: State<V>) {
    && s.generation <= t.generation && |s.loads| <= |t.loads| && |s.waiters| <= |t.waiters|
    && forall id :: 0 <= id < |s.loads| ==>
         s.loads[id].generation == t.loads[id].generation
         && (!s.loads[id].status.Running? ==> t.loads[id] == s.loads[id])
  }

  lemma GetKeeps<V>(s: State<V>, aborted: bool, signal: bool)
    requires Inv(s)
    ensures Inv(GetStep(s, aborted, signal)) && Extends(s, GetStep(s, aborted, signal))
  {
    WaitersKept(s, GetStep(s, aborted, signal));
  }

  lemma SettleKeeps<V>(s: State<V>, id: nat, loaded: Option<V>)
    requires Inv(s)
    ensures Inv(SettleStep(s, id, loaded)) && Extends(s, SettleStep(s, id, loaded))
  {
    WaitersKept(s, SettleStep(s, id, loaded));
  }

  /** Getters keep their promise when loads only settle and only new getters appear. */
  lemma WaitersKept<V>(s: State<V>, t: State<V>)
    requires Extends(s, t) && forall w :: 0 <= w < |s.waiters| ==> WaiterInv(s, s.waiters[w])
    requires t.waiters[..|s.waiters|] == s.waiters
    requires forall w :: |s.waiters| <= w < |t.waiters| ==> WaiterInv(t, t.waiters[w])
    ensures forall w :: 0 <= w < |t.waiters| ==> WaiterInv(t, t.waiters[w])
  {
    forall w | 0 <= w < |t.waiters| ensures WaiterInv(t, t.waiters[w]) {
      if w < |s.waiters| { assert t.waiters[w] == t.waiters[..|s.waiters|][w] && WaiterInv(s, s.waiters[w]); }
    }
  }

  lemma DeliverKeeps<V>(s: State<V>, w: nat)
    requires Inv(s)
    ensures Inv(DeliverStep(s, w)) && Extends(s, DeliverStep(s, w))
    ensures Inv(AbortStep(s, w)) && Extends(s, AbortStep(s, w))
  {}

  lemma ClearKeeps<V>(s: State<V>, expected: Option<V>)
    requires Inv(s)
    ensures Inv(ClearStep(s, expected)) && Extends(s, ClearStep(s, expected))
  {
    WaitersKept(s, ClearStep(s, expected));
  }

  lemma ReplaceKeeps<V>(s: State<V>, next: V)
    requires Inv(s)
    ensures Inv(ReplaceStep(s, next)) && Extends(s, ReplaceStep(s, next))
  {
    WaitersKept(s, ReplaceStep(s, next));
  }

  lemma StepKeeps<V>(s: State<V>, e: Event<V>)
    requires Inv(s)
    ensures Inv(Step(s, e)) && Extends(s, Step(s, e))
  {
    match e
    case Get(aborted, signal) => GetKeeps(s, aborted, signal);
    case Clear(expected) => ClearKeeps(s, expected);
    case Replace(next) => ReplaceKeeps(s, next);
    case Settle(id, loaded) => SettleKeeps(s, id, loaded);
    case CleanUp(id) =>
    case Deliver(w) => DeliverKeeps(s, w);
    case Abort(w) => DeliverKeeps(s, w);
  }

  lemma {:induction false} RunKeeps<V>(s: State<V>, events: seq<Event<V>>)
    requires Inv(s)
    ensures Inv(Run(s, events)) && Extends(s, Run(s, events))
    decreases |events|
  {
    if events != [] {
      hide Inv, Step;
      StepKeeps(s, events[0]);
      RunKeeps(Step(s, events[0]), events[1..]);
    }
  }

  /** In every reachable state a cached value and a pending load exclude each other, at most one load of the current
      generation is unsettled, and the cached value was replaced or loaded in the current generation. */
  lemma ReachableStates<V>(events: seq<Event<V>>)
    ensures var s := Run(Empty(), events);
      && Inv(s)
      && !(s.value.Some? && s.pending.Some?)
      && (forall i, j :: 0 <= i < |s.loads| && 0 <= j < |s.loads| && s.loads[i] == s.loads[j] == Load(s.generation, Running)
            ==> i == j)
      && (s.value.Some? && s.source.FromLoad? ==> s.loads[s.source.load].generation == s.generation)
  {
    RunKeeps(Empty(), events);
  }

  /** Once an invalidation took effect, a load that was still running when it did can neither fill the cache nor
      reach any getter, whatever happens afterwards. */
  lemma {:induction false} StaleLoadIsFenced<V>(s: State<V>, id: nat, events: seq<Event<V>>)
    requires Inv(s) && id < |s.loads| && s.loads[id].generation < s.generation && !s.loads[id].status.Fulfilled?
    ensures var t := Run(s, events);
      && id < |t.loads| && !t.loads[id].status.Fulfilled?
      && !(t.value.Some? && t.source == FromLoad(id))
      && forall w :: 0 <= w < |t.waiters| && t.waiters[w].load == Some(id) ==> !t.waiters[w].status.Received?
    decreases |events|
  {
    if events == [] {
      assert forall w :: 0 <= w < |s.waiters| ==> WaiterInv(s, s.waiters[w]);
    } else {
      StepKeeps(s, events[0]);
      StaleLoadIsFenced(Step(s, events[0]), id, events[1..]);
    }
  }

  /** An invalidation takes effect exactly when the generation advances: always for `replace` and for `clear` of
      anything or of the cached value, never for `clear` of another value. */
  lemma InvalidationAdvances<V>(s: State<V>, e: Event<V>)
    ensures Step(s, e).generation ==
            s.generation + if e.Replace? || (e.Clear? && (e.expected.None? || s.value == e.expected)) then 1 else 0
  {}

  /** What a waiting getter is given is the authority's current value exactly when no invalidation took effect since
      its load started. */
  lemma DeliveredIsCurrent<V>(s: State<V>, w: nat)
    requires Inv(s) && w < |s.waiters| && s.waiters[w].status.Waiting?
    ensures s.waiters[w].load.Some? && s.waiters[w].load.value < |s.loads|
    ensures var load := s.loads[s.waiters[w].load.value];
            load.status.Fulfilled? ==>
              && DeliverStep(s, w).waiters[w].status == Received(load.status.value)
              && (load.generation == s.generation <==>
                    s.value == Some(load.status.value) && s.source == FromLoad(s.waiters[w].load.value))
    ensures var load := s.loads[s.waiters[w].load.value];
            load.status.Failed? ==> DeliverStep(s, w).waiters[w].status == Rejected
  {
    assert WaiterInv(s, s.waiters[w]);
  }

  /** A getter that is not aborted is answered at once exactly when a session is cached; otherwise it shares the one
      load that may still fill the cache, and only a getter that finds none starts it. */
  lemma GettersShareOneLoad<V>(s: State<V>, signal: bool)
    requires Inv(s)
    ensures var t := GetStep(s, false, signal);
      var w := |s.waiters|;
      && |t.waiters| == w + 1 && t.generation == s.generation && t.value == s.value
      && (s.value.Some? ==> t.waiters[w].status == Received(s.value.value) && t.loads == s.loads)
      && (s.value.None? ==>
            && t.waiters[w].status == Waiting && t.waiters[w].load == t.pending && t.pending.Some?
            && t.loads[t.pending.value].generation == s.generation
            && (t.loads == s.loads <==> s.pending.Some?) && |t.loads| <= |s.loads| + 1)
  {}

  /** The fence acts when a load settles, not when its getters run: a getter whose load had already fulfilled still
      receives the value after a `clear` that came in between. */
  lemma LateGetterSeesClearedValue<V>(v: V)
    ensures var s := Run(Empty(), [Get(false, false), Settle(0, Some(v)), Clear(None), Deliver(0)]);
            && |s.waiters| == 1 && s.waiters[0].status == Received(v) && s.value == None
            && |s.loads| == 1 && s.loads[0].generation < s.generation
  {
    var s0: State<V> := Empty();
    var s1 := GetStep(s0, false, false);
    var s2 := SettleStep(s1, 0, Some(v));
    var s3 := ClearStep(s2, None);
    var s4 := DeliverStep(s3, 0);
    var es: seq<Event<V>> := [Get(false, false), Settle(0, Some(v)), Clear(None), Deliver(0)];
    assert es[1..] == [Settle(0, Some(v)), Clear(None), Deliver(0)];
    assert es[1..][1..] == [Clear(None), Deliver(0)];
    assert es[1..][1..][1..] == [Deliver(0)];
    assert Run(s3, [Deliver(0)]) == Run(s4, []) == s4;
    assert Run(s2, [Clear(None), Deliver(0)]) == Run(s3, [Deliver(0)]);
    assert Run(s1, es[1..]) == Run(s2, [Clear(None), Deliver(0)]);
  }

  // Aborting one waiter.

  /** Equal but for what happened to getter `w`. */
  ghost predicate SameBut<V>(s: State<V>, t: State<V>, w: nat) {
    && s.(waiters := []) == t.(waiters := []) && |s.waiters| == |t.waiters|
    && (forall k :: 0 <= k < |s.waiters| && k != w ==> s.waiters[k] == t.waiters[k])
    && (w < |s.waiters| ==> s.waiters[w].load == t.waiters[w].load && s.waiters[w].signal == t.waiters[w].signal)
  }

  function WithoutAborts<V>(events: seq<Event<V>>, w: nat): seq<Event<V>> {
    if events == [] then []
    else (if events[0] == Abort(w) then [] else [events[0]]) + WithoutAborts(events[1..], w)
  }

  lemma SameStep<V>(s: State<V>, t: State<V>, w: nat, e: Event<V>)
    requires SameBut(s, t, w)
    ensures SameBut(Step(s, e), Step(t, e), w)
  {}

  /** Aborting a getter changes nothing for the cache, the loads or any other getter: the run in which it was never
      aborted ends the same. */
  lemma {:induction false} AbortIsPrivate<V>(s: State<V>, t: State<V>, w: nat, events: seq<Event<V>>)
    requires SameBut(s, t, w)
    ensures SameBut(Run(s, events), Run(t, WithoutAborts(events, w)), w)
    decreases |events|
  {
    if events != [] {
      hide Step;
      var rest := WithoutAborts(events[1..], w);
      if events[0] == Abort(w) {
        AbortChangesOnlyIts(s, t, w);
        AbortIsPrivate(Step(s, events[0]), t, w, events[1..]);
        assert WithoutAborts(events, w) == rest;
      } else {
        SameStep(s, t, w, events[0]);
        AbortIsPrivate(Step(s, events[0]), Step(t, events[0]), w, events[1..]);
        var kept := WithoutAborts(events, w);
        assert kept[0] == events[0] && kept[1..] == rest;
      }
    }
  }

  lemma AbortChangesOnlyIts<V>(s: State<V>, t: State<V>, w: nat)
    requires SameBut(s, t, w)
    ensures SameBut(Step(s, Abort(w)), t, w)
  {}

  // What each step does, and what a clear means for those who come later.

  /** A clear of anything, or of the very value that is cached, leaves no value and no pending load, in a new generation;
      any other clear changes nothing. */
  lemma ClearExactly<V>(s: State<V>, expected: Option<V>)
    ensures var t := Step(s, Clear(expected));
      if expected.None? || s.value == expected
      then && t.value == None && t.pending == None && t.generation == s.generation + 1
           && t.loads == s.loads && t.waiters == s.waiters
      else t == s
  {}

  /** A replacement is the value from then on, in a new generation, with no load that could overwrite it. */
  lemma ReplaceExactly<V>(s: State<V>, next: V)
    ensures var t := Step(s, Replace(next));
      && t.value == Some(next) && t.pending == None && t.generation == s.generation + 1
      && t.loads == s.loads && t.waiters == s.waiters
  {}

  /** A load that is still running fills the cache exactly when it brings a value in its own generation, and then it is no
      longer pending; otherwise it has failed and the cache is as before. */
  lemma SettleExactly<V>(s: State<V>, id: nat, loaded: Option<V>)
    requires Inv(s) && id < |s.loads| && s.loads[id].status.Running?
    ensures var t := Step(s, Settle(id, loaded));
      && |t.loads| == |s.loads| && t.generation == s.generation && t.waiters == s.waiters
      && (if loaded.Some? && s.loads[id].generation == s.generation
          then t.value == loaded && t.pending == None && t.loads[id].status == Fulfilled(loaded.value)
          else t.value == s.value && t.loads[id].status == Failed)
  {}

  /** A failed load is forgotten, so that the next getter starts another; no other load is. */
  lemma CleanUpExactly<V>(s: State<V>, id: nat)
    requires Inv(s) && id < |s.loads| && s.loads[id].status.Failed?
    ensures var t := Step(s, CleanUp(id));
      && t == s.(pending := if s.pending == Some(id) then None else s.pending)
      && (s.value.None? && s.pending == Some(id) ==>
            |GetStep(t, false, false).loads| == |s.loads| + 1 && GetStep(t, false, false).loads[|s.loads|].status.Running?)
  {}

  /** An abort rejects its own getter, if that one waits and has a signal. */
  lemma AbortExactly<V>(s: State<V>, w: nat)
    requires w < |s.waiters|
    ensures var t := Step(s, Abort(w));
      if s.waiters[w].signal && s.waiters[w].status.Waiting?
      then |t.waiters| == |s.waiters| && t.waiters[w].status == Aborted && t.loads == s.loads && t.value == s.value
      else t == s
  {}

  /** Among the events, `v` is put in by a replacement or brought by a load numbered `n` or later. */
  ghost predicate Brought<V>(es: seq<Event<V>>, n: nat, v: V) {
    exists k :: 0 <= k < |es| && Brings(es[k], n, v)
  }

  ghost predicate Brings<V>(e: Event<V>, n: nat, v: V) {
    e == Replace(v) || (e.Settle? && e.load >= n && e.loaded == Some(v))
  }

  lemma BroughtOn<V>(es: seq<Event<V>>, e: Event<V>, n: nat)
    ensures forall v :: Brought(es, n, v) ==> Brought(es + [e], n, v)
    ensures forall v :: Brings(e, n, v) ==> Brought(es + [e], n, v)
  {
    forall v | Brought(es, n, v) ensures Brought(es + [e], n, v) {
      var k :| 0 <= k < |es| && Brings(es[k], n, v);
      assert Brings((es + [e])[k], n, v);
    }
    forall v | Brings(e, n, v) ensures Brought(es + [e], n, v) { assert Brings((es + [e])[|es|], n, v); }
  }

  /** Everything that a getter numbered `m` or later may see was brought by the events. */
  ghost predicate Since<V>(n: nat, m: nat, es: seq<Event<V>>, s: State<V>) {
    && n <= |s.loads| && m <= |s.waiters|
    && (s.value.Some? ==> Brought(es, n, s.value.value))
    && (s.pending.Some? ==> s.pending.value >= n)
    && (forall id :: n <= id < |s.loads| && s.loads[id].status.Fulfilled? ==> Brought(es, n, s.loads[id].status.value))
    && (forall id :: 0 <= id < n && s.loads[id].status.Running? ==> s.loads[id].generation < s.generation)
    && (forall w :: m <= w < |s.waiters| ==> WaiterSince(n, es, s.waiters[w]))
  }

  ghost predicate WaiterSince<V>(n: nat, es: seq<Event<V>>, w: Waiter<V>) {
    (w.load.Some? ==> w.load.value >= n) && (w.status.Received? ==> Brought(es, n, w.status.value))
  }

  lemma WaitersSince<V>(n: nat, m: nat, es: seq<Event<V>>, e: Event<V>, s: State<V>)
    requires Since(n, m, es, s)
    ensures forall w :: m <= w < |s.waiters| ==> WaiterSince(n, es + [e], s.waiters[w])
  {
    BroughtOn(es, e, n);
    forall w | m <= w < |s.waiters| ensures WaiterSince(n, es + [e], s.waiters[w]) {
      assert WaiterSince(n, es, s.waiters[w]);
    }
  }

  lemma SinceOn<V>(n: nat, m: nat, es: seq<Event<V>>, e: Event<V>, s: State<V>)
    requires Since(n, m, es, s)
    ensures Since(n, m, es + [e], Step(s, e))
  {
    hide Brought;
    BroughtOn(es, e, n);
    WaitersSince(n, m, es, e, s);
    if e.Replace? { assert Brings(e, n, e.next); }
    if e.Settle? && e.loaded.Some? && e.load >= n { assert Brings(e, n, e.loaded.value); }
  }

  lemma {:induction false} RunOn<V>(s: State<V>, es: seq<Event<V>>, e: Event<V>)
    ensures Run(s, es + [e]) == Step(Run(s, es), e)
    decreases |es|
  {
    hide Step;
    var longer := es + [e];
    if es == [] {
      assert longer[1..] == [] && longer[0] == e;
    } else {
      assert longer[0] == es[0] && longer[1..] == es[1..] + [e];
      RunOn(Step(s, es[0]), es[1..], e);
    }
  }

  lemma {:induction false} RunSince<V>(n: nat, m: nat, es: seq<Event<V>>, s: State<V>)
    requires Since(n, m, [], s)
    ensures Since(n, m, es, Run(s, es))
    decreases |es|
  {
    hide Since, Step;
    if es != [] {
      var shorter, e := es[..|es| - 1], es[|es| - 1];
      assert es == shorter + [e];
      RunSince(n, m, shorter, s);
      RunOn(s, shorter, e);
      SinceOn(n, m, shorter, e, Run(s, shorter));
    }
  }

  /** After an effective clear, a getter that begins later only ever receives a value that was put in after the clear, or
      brought by a load that began after it. */
  lemma LaterGettersSeeLaterValues<V>(s: State<V>, expected: Option<V>, es: seq<Event<V>>, w: nat)
    requires Inv(s) && (expected.None? || s.value == expected)
    ensures var t := Step(s, Clear(expected));
      var u := Run(t, es);
      |t.waiters| <= w < |u.waiters| && u.waiters[w].status.Received? ==>
        Brought(es, |t.loads|, u.waiters[w].status.value)
  {
    var t := Step(s, Clear(expected));
    assert Since(|t.loads|, |t.waiters|, [], t);
    RunSince(|t.loads|, |t.waiters|, es, t);
    var u := Run(t, es);
    if |t.waiters| <= w < |u.waiters| { assert WaiterSince(|t.loads|, es, u.waiters[w]); }
  }

  /** The closures of the source and the promises they share. */
  class Authority<V(==)> {
    var value: Option<V>
    var source: Source
    var pending: Option<nat>
    var generation: nat
    var loads: seq<Load<V>>
    var waiters: seq<Waiter<V>>

    ghost function View(): State<V> reads this { State(value, source, pending, generation, loads, waiters) }

    constructor ()
      ensures View() == Empty() && Inv(View())
    {
      value, source, pending, generation, loads, waiters := None, FromReplace, None, 0, [], [];
    }

    /** The index of the getter's promise, or none if its signal had already fired. */
    method GetSession(aborted: bool, signal: bool) returns (waiter: Option<nat>)
      requires Inv(View())
      modifies this
      ensures View() == Step(old(View()), Get(aborted, signal)) && Inv(View())
      ensures waiter == if aborted then None else Some(|old(waiters)|)
    {
      StepKeeps(View(), Get(aborted, signal));
      if aborted { return None; }
      waiter := Some(|waiters|);
      if value.Some? {
        waiters := waiters + [Waiter(None, signal, Received(value.value))];
        return;
      }
      if pending.None? {
        pending := Some(|loads|);
        loads := loads + [Load(generation, Running)];
      }
      waiters := waiters + [Waiter(pending, signal, Waiting)];
    }

    method ClearSession(expected: Option<V>)
      requires Inv(View())
      modifies this
      ensures View() == Step(old(View()), Clear(expected)) && Inv(View())
    {
      StepKeeps(View(), Clear(expected));
      if expected.Some? && value != expected { return; }
      generation := generation + 1;
      value := None;
      pending := None;
    }

    method ReplaceSession(next: V)
      requires Inv(View())
      modifies this
      ensures View() == Step(old(View()), Replace(next)) && Inv(View())
    {
      StepKeeps(View(), Replace(next));
      generation := generation + 1;
      value, source := Some(next), FromReplace;
      pending := None;
    }

    /** The callback of a load, with what the loader produced. */
    method LoadSettled(id: nat, loaded: Option<V>)
      requires Inv(View()) && id < |loads| && loads[id].status.Running?
      modifies this
      ensures View() == Step(old(View()), Settle(id, loaded)) && Inv(View())
    {
      StepKeeps(View(), Settle(id, loaded));
      if loaded.None? || generation != loads[id].generation {
        loads := loads[id := loads[id].(status := Failed)];
        return;
      }
      value, source := loaded, FromLoad(id);
      if pending == Some(id) { pending := None; }
      loads := loads[id := loads[id].(status := Fulfilled(loaded.value))];
    }

    /** The handler of a load that failed. */
    method LoadFailed(id: nat)
      requires Inv(View()) && id < |loads| && loads[id].status.Failed?
      modifies this
      ensures View() == Step(old(View()), CleanUp(id)) && Inv(View())
    {
      StepKeeps(View(), CleanUp(id));
      if pending == Some(id) { pending := None; }
    }
  }
}
