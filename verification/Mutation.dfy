/** Optimistic mutations of the organization panel, against a server that may commit and then lose its reply. */
module Mutation {
  import opened Common

  // How a failed request is classified.

  datatype ErrorCode = Aborted | RecentAuthRequired | Unauthorized | Forbidden | Expired | Conflict | ValidationFailed
                     | TransportFailed | InvalidResponse | HttpFailed

  datatype ClientError = ClientError(code: ErrorCode, status: Option<nat>, serverCode: string)

  /** What became of one request.

      `NotSent` covers every failure before the request goes out, a cancelled human verification among them.
      `NoAnswer` is a rejected fetch; `Unreadable` an answer whose body or status is not the promised one;
      `Refusal` a well-formed error body. */
  datatype Reply =
    | Success
    | NotSent(error: ErrorCode)
    | NoAnswer(cancelled: bool)
    | Unreadable(status: nat)
    | Refusal(status: nat, serverCode: string)

  function Lower(c: char): char {
    if 'A' <= c <= 'Z' then (c as int + 32) as char else c
  }

  function LowerAll(s: string): string {
    if s == [] then [] else [Lower(s[0])] + LowerAll(s[1..])
  }

  function Normalized(s: string): string {
    if s == [] then [] else [if s[0] in ".-" then '_' else Lower(s[0])] + Normalized(s[1..])
  }

  predicate Contains(s: string, part: string) {
    part <= s || (s != [] && Contains(s[1..], part))
  }

  /** `word` between separators or ends; `atStart` says whether `s` starts after one. */
  predicate HasWord(s: string, word: string, atStart: bool) {
    || (atStart && word <= s && (|s| == |word| || Separates(s[|word|])))
    || (s != [] && HasWord(s[1..], word, Separates(s[0])))
  }

  predicate Separates(c: char) { c in "._-" }

  predicate AsksRecentAuth(code: string) {
    var c := LowerAll(code);
    || Contains(c, "recentauth") || Contains(c, "recent_auth") || Contains(c, "recent-auth")
    || Contains(c, "reauth") || Contains(c, "webauthn")
  }

  predicate NamesSession(code: string) { HasWord(LowerAll(code), "session", true) }

  predicate NamesExpiry(code: string) {
    Contains(LowerAll(code), "expired") || Contains(LowerAll(code), "expiration")
  }

  predicate NamesConflict(code: string) {
    Contains(code, "conflict") || Contains(code, "version") || Contains(code, "reused") || Contains(code, "last_owner")
  }

  function RefusalCode(status: nat, code: string): ErrorCode {
    if status == 401 then Unauthorized
    else if status == 403 then Forbidden
    else if status == 428 || AsksRecentAuth(code) then RecentAuthRequired
    else if NamesSession(code) then Unauthorized
    else if status == 410 || NamesExpiry(code) then Expired
    else if status == 409 || NamesConflict(code) then Conflict
    else if status == 400 || status == 422 then ValidationFailed
    else HttpFailed
  }

  function ErrorOf(reply: Reply): ClientError
    requires !reply.Success?
  {
    match reply
    case NotSent(code) => ClientError(code, None, "")
    case NoAnswer(cancelled) => ClientError(if cancelled then Aborted else TransportFailed, None, "")
    case Unreadable(status) => ClientError(InvalidResponse, Some(status), "")
    case Refusal(status, code) => ClientError(RefusalCode(status, code), Some(status), code)
  }

  predicate ServerFailure(status: nat) { 500 <= status <= 599 }

  predicate Ambiguous(e: ClientError) {
    || e.code.TransportFailed? || e.code.InvalidResponse?
    || (e.code.HttpFailed? && e.status.Some? && ServerFailure(e.status.value))
  }

  predicate LastOwner(e: ClientError) {
    e.code.Conflict? &&
    (Contains(Normalized(e.serverCode), "last_owner") || Contains(Normalized(e.serverCode), "final_active_owner"))
  }

  // What the texts mean, by position.

  ghost predicate OccursAt(s: string, part: string, i: int) {
    0 <= i && i + |part| <= |s| && s[i..i + |part|] == part
  }

  ghost predicate Occurs(s: string, part: string) { exists i :: OccursAt(s, part, i) }

  lemma {:induction false} LowerExactly(s: string)
    ensures |LowerAll(s)| == |s| == |Normalized(s)|
    ensures forall i :: 0 <= i < |s| ==>
              LowerAll(s)[i] == if 'A' <= s[i] <= 'Z' then (s[i] as int + 32) as char else s[i]
    ensures forall i :: 0 <= i < |s| ==> Normalized(s)[i] == if s[i] == '.' || s[i] == '-' then '_' else LowerAll(s)[i]
  {
    if s != [] {
      LowerExactly(s[1..]);
      assert forall i :: 1 <= i < |s| ==> s[i] == s[1..][i - 1];
      assert LowerAll(s)[1..] == LowerAll(s[1..]) && Normalized(s)[1..] == Normalized(s[1..]);
      forall i | 0 <= i < |s|
        ensures LowerAll(s)[i] == if 'A' <= s[i] <= 'Z' then (s[i] as int + 32) as char else s[i]
        ensures Normalized(s)[i] == if s[i] == '.' || s[i] == '-' then '_' else LowerAll(s)[i]
      {
        if i > 0 { assert LowerAll(s)[i] == LowerAll(s[1..])[i - 1] && Normalized(s)[i] == Normalized(s[1..])[i - 1]; }
      }
    }
  }

  lemma OccursShift(s: string, part: string, i: int)
    requires s != [] && i > 0
    ensures OccursAt(s, part, i) <==> OccursAt(s[1..], part, i - 1)
  {
    if i + |part| <= |s| { assert s[1..][i - 1..i - 1 + |part|] == s[i..i + |part|]; }
  }

  lemma {:induction false} ContainsExactly(s: string, part: string)
    ensures Contains(s, part) <==> Occurs(s, part)
    decreases |s|
  {
    if part <= s { assert OccursAt(s, part, 0); }
    if s != [] {
      ContainsExactly(s[1..], part);
      if Contains(s[1..], part) {
        var i :| OccursAt(s[1..], part, i);
        OccursShift(s, part, i + 1);
      }
    }
    if Occurs(s, part) {
      var i :| OccursAt(s, part, i);
      if i > 0 {
        OccursShift(s, part, i);
        assert Occurs(s[1..], part);
      }
    }
  }

  lemma SeparatesExactly(c: char) ensures Separates(c) <==> c == '.' || c == '_' || c == '-' {}

  /** The word stands at `i`, with a separator or an end of the text on either side. */
  ghost predicate WordAt(s: string, word: string, atStart: bool, i: int) {
    && OccursAt(s, word, i)
    && (if i == 0 then atStart else Separates(s[i - 1]))
    && (i + |word| == |s| || Separates(s[i + |word|]))
  }

  /** A word in the rest of a text is a word in the text, one place later. */
  lemma WordShift(s: string, word: string, atStart: bool, i: int)
    requires s != [] && word != [] && i > 0
    ensures WordAt(s, word, atStart, i) <==> WordAt(s[1..], word, Separates(s[0]), i - 1)
  {
    hide Separates;
    var rest := s[1..];
    if i + |word| <= |s| { assert rest[i - 1..i - 1 + |word|] == s[i..i + |word|]; }
  }

  lemma {:induction false} WordExactly(s: string, word: string, atStart: bool)
    requires word != []
    ensures HasWord(s, word, atStart) <==> exists i :: WordAt(s, word, atStart, i)
    decreases |s|
  {
    hide Separates;
    if atStart && word <= s && (|s| == |word| || Separates(s[|word|])) { assert WordAt(s, word, atStart, 0); }
    if s != [] {
      WordExactly(s[1..], word, Separates(s[0]));
      if HasWord(s[1..], word, Separates(s[0])) {
        var i :| WordAt(s[1..], word, Separates(s[0]), i);
        WordShift(s, word, atStart, i + 1);
      }
    }
    if exists i :: WordAt(s, word, atStart, i) {
      var i :| WordAt(s, word, atStart, i);
      if i > 0 { WordShift(s, word, atStart, i); } else { assert word <= s; }
    }
  }

  /** What a server's code is taken for: texts that occur in it, without regard to case but for the last. */
  lemma CodesExactly(code: string)
    ensures var c := LowerAll(code);
      && (AsksRecentAuth(code) <==>
            || Occurs(c, "recentauth") || Occurs(c, "recent_auth") || Occurs(c, "recent-auth")
            || Occurs(c, "reauth") || Occurs(c, "webauthn"))
      && (NamesSession(code) <==> exists i :: WordAt(c, "session", true, i))
      && (NamesExpiry(code) <==> Occurs(c, "expired") || Occurs(c, "expiration"))
    ensures NamesConflict(code) <==>
      Occurs(code, "conflict") || Occurs(code, "version") || Occurs(code, "reused") || Occurs(code, "last_owner")
  {
    hide Contains, HasWord, LowerAll, Occurs, WordAt;
    var c := LowerAll(code);
    forall part: string ensures Contains(c, part) <==> Occurs(c, part) { ContainsExactly(c, part); }
    forall part: string ensures Contains(code, part) <==> Occurs(code, part) { ContainsExactly(code, part); }
    WordExactly(c, "session", true);
  }

  /** How a refusal is classified: by these statuses first, then by what its code says, and last by its status again. */
  lemma RefusalExactly(status: nat, code: string)
    ensures var r := RefusalCode(status, code);
      var auth, session, expiry, conflict := AsksRecentAuth(code), NamesSession(code), NamesExpiry(code), NamesConflict(code);
      var named := status == 401 || status == 403 || status == 428 || auth;
      && (r == Forbidden <==> status == 403)
      && (r == Unauthorized <==> status == 401 || (!named && session))
      && (r == RecentAuthRequired <==> status != 401 && status != 403 && named)
      && (r == Expired <==> !named && !session && (status == 410 || expiry))
      && (r == Conflict <==> !named && !session && status != 410 && !expiry && (status == 409 || conflict))
      && (r == ValidationFailed <==>
            !named && !session && !expiry && !conflict && (status == 400 || status == 422))
      && (r == HttpFailed <==>
            !named && !session && !expiry && !conflict && status !in {400, 409, 410, 422})
  {
    hide AsksRecentAuth, NamesSession, NamesExpiry, NamesConflict;
  }

  // The notice below the panel.

  datatype Notice = NoNotice | Known(code: ErrorCode) | Unnamed | LastOwnerProtected | ReconciliationRequired
                  | InvitationTerminal | InvitationUnavailable

  function ResourceError(e: ClientError): Notice {
    var c := Normalized(e.serverCode);
    if LastOwner(e) then LastOwnerProtected
    else if e.code.Expired? || c == "invitation_expired" then Known(Expired)
    else if c in {"invitation_revoked", "invitation_already_accepted", "invitation_token_replayed"} then InvitationTerminal
    else if c in {"invitation_invalid", "invitation_not_found", "resource_not_found", "not_found"} then InvitationUnavailable
    else Known(e.code)
  }

  predicate Retryable(n: Notice) {
    n.Known? && (n.code.Aborted? || n.code.RecentAuthRequired? || n.code.Expired?)
  }

  /** The notices whose button runs the offered action instead of a plain refresh. */
  predicate ShowsOffer(n: Notice) {
    n.ReconciliationRequired? || (n.Known? && (n.code.Aborted? || n.code.RecentAuthRequired?))
  }

  // The panel.

  datatype Options = Options(optimistic: bool, reconcile: bool, reconcileOnConflict: bool, retry: bool)

  /** The failures after which the panel puts the old view back. */
  predicate RollsBack(o: Options, reply: Reply) {
    !reply.Success? && !(o.reconcile && (Ambiguous(ErrorOf(reply)) || (o.reconcileOnConflict && ErrorOf(reply).code.Conflict?)))
  }

  datatype Phase = Operating | Reconciling(reply: Reply) | Finished(reply: Reply)

  /** What the panel shows: its React states, by name. */
  type View<V> = map<string, V>

  /** `captured` holds the states that the call's rollback sets, with their values in the render whose handler started
      the call. */
  datatype Call<V> = Call(options: Options, captured: View<V>, phase: Phase)

  datatype Offer = Recheck(call: nat) | Resend(call: nat)

  /** `shown` are the offers whose button has been rendered. `sent` and `rolledBack` record the operations invoked and the
      rollbacks done, by call. */
  datatype State<V> = State(view: View<V>, pending: Option<string>, notice: Notice, retry: Option<Offer>, rechecks: nat,
                            shown: set<Offer>, calls: seq<Call<V>>, sent: seq<nat>, rolledBack: seq<nat>)

  /** `rendered` is the pending action of the render whose handler runs. A press runs the handler of a button that some
      render showed, whatever the state is now; that handler was made while nothing was pending, and a resend uses the
      options and the captured states of the call it repeats. The functions are what the steps do to the view. */
  datatype Event<!V> =
    | Begin(rendered: Option<string>, action: string, options: Options, captured: View<V>, optimistic: View<V> -> View<V>)
    | Settle(call: nat, reply: Reply, change: View<V> -> View<V>)
    | Reconciled(call: nat, failure: Option<ClientError>, change: View<V> -> View<V>)
    | Render
    | PressResend(call: nat, action: string, optimistic: View<V> -> View<V>)
    | PressRecheck(call: nat)
    | Rechecked(change: View<V> -> View<V>)
    | Remark(remark: Notice)
    | Refresh(change: View<V> -> View<V>)
    | Dismiss

  function Started<V>(s: State<V>, action: string, options: Options, captured: View<V>, optimistic: View<V> -> View<V>): State<V> {
    s.(view := if options.optimistic then optimistic(s.view) else s.view,
       pending := Some(action), notice := NoNotice, retry := None,
       calls := s.calls + [Call(options, captured, Operating)], sent := s.sent + [|s.calls|])
  }

  function Moved<V>(s: State<V>, k: nat, phase: Phase): State<V>
    requires k < |s.calls|
  {
    s.(calls := s.calls[k := s.calls[k].(phase := phase)])
  }

  function Settled<V>(s: State<V>, k: nat, reply: Reply, change: View<V> -> View<V>): State<V>
    requires k < |s.calls|
  {
    var call := s.calls[k];
    if RollsBack(call.options, reply) then
      var notice := ResourceError(ErrorOf(reply));
      Moved(s, k, Finished(reply)).(
        view := if call.options.optimistic then s.view + call.captured else s.view,
        notice := notice,
        retry := if call.options.retry && Retryable(notice) then Some(Resend(k)) else s.retry,
        pending := None,
        rolledBack := s.rolledBack + [k])
    else
      var view := if reply.Success? then change(s.view) else s.view;
      if call.options.reconcile then Moved(s, k, Reconciling(reply)).(view := view)
      else Moved(s, k, Finished(reply)).(view := view, pending := None)
  }

  function ReconciledNotice(options: Options, reply: Reply, failure: Option<ClientError>): Notice
    requires reply.Success? ==> failure.Some?
  {
    var error := if reply.Success? then failure.value else ErrorOf(reply);
    if LastOwner(error) then LastOwnerProtected
    else if !reply.Success? && options.reconcileOnConflict && error.code.Conflict? && failure.None? then Known(Conflict)
    else ReconciliationRequired
  }

  function AfterReconcile<V>(s: State<V>, k: nat, failure: Option<ClientError>, change: View<V> -> View<V>): State<V>
    requires k < |s.calls| && s.calls[k].phase.Reconciling?
  {
    var call := s.calls[k];
    var reply := call.phase.reply;
    var done := Moved(s, k, Finished(reply)).(view := change(s.view), pending := None);
    if reply.Success? && failure.None? then done
    else done.(notice := ReconciledNotice(call.options, reply, failure), retry := Some(Recheck(k)))
  }

  /** The offer whose button a render shows. */
  function Displayed<V>(s: State<V>): set<Offer> {
    if ShowsOffer(s.notice) && s.retry.Some? then {s.retry.value} else {}
  }

  function Step<V>(s: State<V>, e: Event<V>): State<V> {
    match e
    case Begin(rendered, action, options, captured, optimistic) =>
      if rendered.Some? then s else Started(s, action, options, captured, optimistic)
    case Render => s.(shown := s.shown + Displayed(s))
    case PressResend(k, action, optimistic) =>
      if Resend(k) in s.shown && k < |s.calls|
      then Started(s, action, s.calls[k].options, s.calls[k].captured, optimistic) else s
    case Settle(k, reply, change) =>
      if k < |s.calls| && s.calls[k].phase.Operating? then Settled(s, k, reply, change) else s
    case Reconciled(k, failure, change) =>
      if k < |s.calls| && s.calls[k].phase.Reconciling? then AfterReconcile(s, k, failure, change) else s
    case PressRecheck(k) =>
      if Recheck(k) in s.shown
      then s.(pending := Some("reconcile"), notice := NoNotice, rechecks := s.rechecks + 1) else s
    case Rechecked(change) =>
      if s.rechecks > 0
      then s.(view := change(s.view), notice := ReconciliationRequired, pending := None, rechecks := s.rechecks - 1) else s
    case Remark(notice) => s.(notice := notice)
    case Refresh(change) => s.(view := change(s.view))
    case Dismiss => s.(notice := NoNotice, retry := None)
  }

  function Run<V>(s: State<V>, es: seq<Event<V>>): State<V>
    decreases |es|
  {
    if es == [] then s else Run(Step(s, es[0]), es[1..])
  }

  function Initial<V>(view: View<V>): State<V> { State(view, None, NoNotice, None, 0, {}, [], [], []) }

  // What every step keeps.

  ghost predicate CallOk<V>(s: State<V>, k: nat)
    requires k < |s.calls|
  {
    var call := s.calls[k];
    && (call.phase.Reconciling? ==> call.options.reconcile && !RollsBack(call.options, call.phase.reply))
    && (k in s.rolledBack <==> call.phase.Finished? && RollsBack(call.options, call.phase.reply))
  }

  /** What an offer is for: a send again after a rollback that may be retried, or a recheck after a reconciliation. */
  ghost predicate OfferFor<V>(s: State<V>, offer: Offer) {
    var k := offer.call;
    && k < |s.calls| && s.calls[k].phase.Finished?
    && (if offer.Resend? then k in s.rolledBack && s.calls[k].options.retry
          && !s.calls[k].phase.reply.Success? && Retryable(ResourceError(ErrorOf(s.calls[k].phase.reply)))
        else k !in s.rolledBack && s.calls[k].options.reconcile)
  }

  ghost predicate OfferOk<V>(s: State<V>) {
    (s.retry.Some? ==> OfferFor(s, s.retry.value)) && forall offer :: offer in s.shown ==> OfferFor(s, offer)
  }

  ghost predicate Inv<V>(s: State<V>) {
    && |s.sent| == |s.calls| && (forall k :: 0 <= k < |s.sent| ==> s.sent[k] == k)
    && (forall k :: 0 <= k < |s.calls| ==> CallOk(s, k))
    && (forall k :: k in s.rolledBack ==> k < |s.calls|)
    && OfferOk(s)
  }

  /** A call keeps its options and captured view, and a settled call keeps its reply. */
  ghost predicate Later<V>(s: State<V>, t: State<V>) {
    && |s.calls| <= |t.calls|
    && (forall k :: 0 <= k < |s.calls| ==>
          && t.calls[k].options == s.calls[k].options && t.calls[k].captured == s.calls[k].captured
          && (s.calls[k].phase.Finished? ==> t.calls[k] == s.calls[k]))
  }

  lemma MovedOk<V>(s: State<V>, t: State<V>, k: nat)
    requires Inv(s) && k < |s.calls| && !s.calls[k].phase.Finished? && t.sent == s.sent && |t.calls| == |s.calls|
    requires forall j :: 0 <= j < |s.calls| && j != k ==> t.calls[j] == s.calls[j]
    requires t.rolledBack == s.rolledBack || t.rolledBack == s.rolledBack + [k]
    requires CallOk(t, k) && OfferOk(t)
    ensures Inv(t)
  {
    forall j | 0 <= j < |t.calls| ensures CallOk(t, j) {
      if j != k { assert CallOk(s, j); }
    }
  }

  lemma SettledKeeps<V>(s: State<V>, k: nat, reply: Reply, change: View<V> -> View<V>)
    requires Inv(s) && k < |s.calls| && s.calls[k].phase.Operating?
    ensures Inv(Settled(s, k, reply, change)) && Later(s, Settled(s, k, reply, change))
  {
    assert CallOk(s, k);
    MovedOk(s, Settled(s, k, reply, change), k);
  }

  lemma ReconcileKeeps<V>(s: State<V>, k: nat, failure: Option<ClientError>, change: View<V> -> View<V>)
    requires Inv(s) && k < |s.calls| && s.calls[k].phase.Reconciling?
    ensures Inv(AfterReconcile(s, k, failure, change)) && Later(s, AfterReconcile(s, k, failure, change))
  {
    assert CallOk(s, k);
    MovedOk(s, AfterReconcile(s, k, failure, change), k);
  }

  lemma StartedKeeps<V>(s: State<V>, action: string, options: Options, captured: View<V>, optimistic: View<V> -> View<V>)
    requires Inv(s)
    ensures Inv(Started(s, action, options, captured, optimistic))
    ensures Later(s, Started(s, action, options, captured, optimistic))
  {
    var t := Started(s, action, options, captured, optimistic);
    forall j | 0 <= j < |t.calls| ensures CallOk(t, j) {
      if j < |s.calls| { assert CallOk(s, j); }
    }
  }

  lemma StepKeeps<V>(s: State<V>, e: Event<V>)
    requires Inv(s)
    ensures Inv(Step(s, e)) && Later(s, Step(s, e))
  {
    hide Settled, AfterReconcile, Started, RollsBack, ReconciledNotice;
    match e
    case Begin(rendered, action, options, captured, optimistic) => StartedKeeps(s, action, options, captured, optimistic);
    case PressResend(k, action, optimistic) =>
      if k < |s.calls| { StartedKeeps(s, action, s.calls[k].options, s.calls[k].captured, optimistic); }
    case Settle(k, reply, change) =>
      if k < |s.calls| && s.calls[k].phase.Operating? { SettledKeeps(s, k, reply, change); }
    case Reconciled(k, failure, change) =>
      if k < |s.calls| && s.calls[k].phase.Reconciling? { ReconcileKeeps(s, k, failure, change); }
    case _ =>
      forall j | 0 <= j < |s.calls| ensures CallOk(Step(s, e), j) { assert CallOk(s, j); }
  }

  lemma {:induction false} RunKeeps<V>(s: State<V>, es: seq<Event<V>>)
    requires Inv(s)
    ensures Inv(Run(s, es)) && Later(s, Run(s, es))
    decreases |es|
  {
    hide Step;
    if es != [] {
      StepKeeps(s, es[0]);
      RunKeeps(Step(s, es[0]), es[1..]);
    }
  }

  // The promises.

  /** In every run each call invokes its operation once, in order; a finished call was rolled back exactly when its
      failure was neither ambiguous nor reconciled; and a call that reconciles is never rolled back, nor offered for
      another send, after a committed or ambiguous outcome. */
  lemma MutationsAreSafe<V>(view: View<V>, es: seq<Event<V>>, k: nat)
    requires k < |Run(Initial(view), es).calls|
    ensures var s := Run(Initial(view), es);
      var call := s.calls[k];
      && |s.sent| == |s.calls| && s.sent[k] == k
      && (call.phase.Finished? ==> (k in s.rolledBack <==> RollsBack(call.options, call.phase.reply)))
      && (call.options.reconcile && call.phase.Finished? &&
          (call.phase.reply.Success? || Ambiguous(ErrorOf(call.phase.reply))) ==>
            k !in s.rolledBack && s.retry != Some(Resend(k)) && Resend(k) !in s.shown)
      && (s.retry == Some(Resend(k)) || Resend(k) in s.shown ==> k in s.rolledBack)
  {
    RunKeeps(Initial(view), es);
    assert CallOk(Run(Initial(view), es), k);
  }

  /** Whatever happens in between, a rollback puts the states it sets to the values captured for it and leaves every other
      state alone. So the whole view is the one before the call if and only if the captured values were current when the
      call began, which a handler of an older render or a resend need not have, and no other state was changed since. */
  lemma RollbackIsExact<V>(view: View<V>, before: seq<Event<V>>, start: Event<V>, between: seq<Event<V>>, reply: Reply,
                           change: View<V> -> View<V>)
    requires var s := Run(Initial(view), before);
      var t := Step(s, start);
      var mid := Run(t, between);
      && |s.calls| < |t.calls| && t.calls[|s.calls|].options.optimistic && RollsBack(t.calls[|s.calls|].options, reply)
      && |s.calls| < |mid.calls| && mid.calls[|s.calls|].phase.Operating?
    ensures var s := Run(Initial(view), before);
      var captured := Step(s, start).calls[|s.calls|].captured;
      var mid := Run(Step(s, start), between);
      var end := Step(mid, Settle(|s.calls|, reply, change));
      && Restores(captured, end.view)
      && end.view - captured.Keys == mid.view - captured.Keys
      && (end.view == s.view <==> Restores(captured, s.view) && mid.view - captured.Keys == s.view - captured.Keys)
  {
    RunKeeps(Initial(view), before);
    var s := Run(Initial(view), before);
    StepKeeps(s, start);
    RunKeeps(Step(s, start), between);
    var mid := Run(Step(s, start), between);
    MergeExactly(mid.view, s.view, Step(s, start).calls[|s.calls|].captured);
  }

  /** `captured` are states of `view`, with their values. */
  ghost predicate Restores<V>(captured: View<V>, view: View<V>) {
    forall f :: f in captured ==> f in view && view[f] == captured[f]
  }

  lemma MergeExactly<V>(mid: View<V>, prior: View<V>, captured: View<V>)
    ensures Restores(captured, mid + captured)
    ensures mid + captured - captured.Keys == mid - captured.Keys
    ensures mid + captured == prior <==> Restores(captured, prior) && mid - captured.Keys == prior - captured.Keys
  {
    if Restores(captured, prior) && mid - captured.Keys == prior - captured.Keys {
      forall f ensures f in mid + captured <==> f in prior {
        if f !in captured { assert f in mid <==> f in mid - captured.Keys; assert f in prior <==> f in prior - captured.Keys; }
      }
      forall f | f in prior ensures (mid + captured)[f] == prior[f] {
        if f !in captured { assert (mid - captured.Keys)[f] == (prior - captured.Keys)[f]; }
      }
      assert mid + captured == prior;
    }
  }

  /** A resend runs the handler of an older render, so its rollback throws away what was loaded since: members `a` are
      changed and the change fails, members `b` are loaded, the change is sent again and fails, and `a` is back. */
  lemma ResendLosesRefresh<V>(a: V, b: V)
    ensures var members := map["members" := a];
      var o := Options(true, true, true, true);
      var s := Run(Initial(members), [Begin(None, "member-role", o, members, v => v), Settle(0, NotSent(Aborted), v => v),
                                      Render, Refresh(v => map["members" := b])]);
      var t := Step(Step(s, PressResend(0, "member-role", v => v)), Settle(1, NotSent(Aborted), v => v));
      s.view == map["members" := b] && t.view == members && t.rolledBack == [0, 1]
  {
    var members := map["members" := a];
    var o := Options(true, true, true, true);
    var e0: Event<V> := Begin(None, "member-role", o, members, v => v);
    var e1: Event<V> := Settle(0, NotSent(Aborted), v => v);
    var e2: Event<V> := Render;
    var e3: Event<V> := Refresh(v => map["members" := b]);
    NotSentNotice();
    RunFour(Initial(members), e0, e1, e2, e3);
    var s1 := Step(Initial(members), e0);
    var s2 := Step(s1, e1);
    assert s2.retry == Some(Resend(0)) && ShowsOffer(s2.notice) && s2.calls[0].captured == members && |s2.calls| == 1;
    var s4 := Step(Step(s2, e2), e3);
    var t := Step(s4, PressResend(0, "member-role", v => v));
    assert t.calls[1] == Call(o, members, Operating);
    assert t.view + members == members;
  }

  lemma NotSentNotice()
    ensures ResourceError(ErrorOf(NotSent(Aborted))) == Known(Aborted)
  {
    NormalizedEmpty();
  }

  lemma RunFour<V>(s: State<V>, a: Event<V>, b: Event<V>, c: Event<V>, d: Event<V>)
    ensures Run(s, [a, b, c, d]) == Step(Step(Step(Step(s, a), b), c), d)
  {
    hide Step;
    assert [a, b, c, d][1..] == [b, c, d] && [b, c, d][1..] == [c, d] && [c, d][1..] == [d];
    var t := Step(Step(Step(s, a), b), c);
    assert Run(t, [d]) == Step(t, d);
    assert Run(Step(Step(s, a), b), [c, d]) == Run(t, [d]);
    assert Run(Step(s, a), [b, c, d]) == Run(Step(Step(s, a), b), [c, d]);
  }

  /** Exactly which replies roll a call back: every failure of a call that cannot reconcile; and of one that can, a request
      that was not sent for a definite reason, one cancelled in flight, and every refusal but a plain server failure and,
      where conflicts are reconciled, a conflict. */
  lemma RollsBackExactly(o: Options, reply: Reply)
    ensures RollsBack(o, reply) <==>
      match reply
      case Success => false
      case NotSent(e) => !o.reconcile || !(e == TransportFailed || e == InvalidResponse || (e == Conflict && o.reconcileOnConflict))
      case NoAnswer(cancelled) => !o.reconcile || cancelled
      case Unreadable(_) => !o.reconcile
      case Refusal(status, code) =>
        || !o.reconcile
        || !(|| (RefusalCode(status, code) == HttpFailed && 500 <= status <= 599)
             || (RefusalCode(status, code) == Conflict && o.reconcileOnConflict))
  {
    hide AsksRecentAuth, NamesSession, NamesExpiry, NamesConflict;
  }

  /** The notice of a failure: a protected last owner, then what an invitation's code says, then the failure's own. */
  lemma NoticeExactly(e: ClientError)
    ensures var n, c := ResourceError(e), Normalized(e.serverCode);
      var lastOwner := e.code == Conflict && (Occurs(c, "last_owner") || Occurs(c, "final_active_owner"));
      && (n == LastOwnerProtected <==> lastOwner)
      && (!lastOwner && (e.code == Expired || c == "invitation_expired") ==> n == Known(Expired))
      && (n == InvitationTerminal <==>
            !lastOwner && e.code != Expired
            && c in {"invitation_revoked", "invitation_already_accepted", "invitation_token_replayed"})
      && (n == InvitationUnavailable <==>
            !lastOwner && e.code != Expired
            && c in {"invitation_invalid", "invitation_not_found", "resource_not_found", "not_found"})
      && (!lastOwner && c !in INVITATION_CODES ==> n == Known(e.code))
  {
    hide Contains, Normalized, Occurs;
    var c := Normalized(e.serverCode);
    ContainsExactly(c, "last_owner");
    ContainsExactly(c, "final_active_owner");
  }

  /** A mutation that begins shows its optimistic view and its pending action, and clears notice and offer. */
  lemma BeginExactly<V>(s: State<V>, action: string, o: Options, captured: View<V>, f: View<V> -> View<V>)
    ensures var t := Step(s, Begin(None, action, o, captured, f));
      && t.view == (if o.optimistic then f(s.view) else s.view) && t.pending == Some(action)
      && t.notice == NoNotice && t.retry == None && t.calls == s.calls + [Call(o, captured, Operating)]
    ensures forall p: string :: Step(s, Begin(Some(p), action, o, captured, f)) == s
  {}

  /** A success shows the operation's change, and goes on to reconcile or ends; an outcome to reconcile leaves the view and
      waits; a rollback ends the call with its notice, and offers it again exactly for these three and with a retry. */
  lemma SettleExactly<V>(s: State<V>, k: nat, reply: Reply, change: View<V> -> View<V>)
    requires Inv(s) && k < |s.calls| && s.calls[k].phase.Operating?
    ensures var t := Step(s, Settle(k, reply, change));
      var o := s.calls[k].options;
      && |t.calls| == |s.calls|
      && (reply.Success? ==> t.view == change(s.view) && t.notice == s.notice && t.retry == s.retry)
      && (!RollsBack(o, reply) && o.reconcile ==> t.calls[k].phase == Reconciling(reply) && t.pending == s.pending)
      && (!RollsBack(o, reply) && !o.reconcile ==> t.calls[k].phase == Finished(reply) && t.pending == None)
      && (!RollsBack(o, reply) && !reply.Success? ==> t.view == s.view && t.notice == s.notice && t.retry == s.retry)
      && (RollsBack(o, reply) ==>
            && t.calls[k].phase == Finished(reply) && t.pending == None && t.notice == ResourceError(ErrorOf(reply))
            && (t.retry == Some(Resend(k)) <==>
                  o.retry && t.notice in {Known(Aborted), Known(RecentAuthRequired), Known(Expired)}))
  {
    hide ResourceError, Inv, CallOk;
    assert OfferOk(s) by { OffersInv(s); }
  }

  /** The end of a reconciliation puts up the reconciled view. A success that reconciled ends there; every other outcome is
      shown with its notice, and with a recheck, never with a send. */
  lemma ReconciledExactly<V>(s: State<V>, k: nat, failure: Option<ClientError>, change: View<V> -> View<V>)
    requires k < |s.calls| && s.calls[k].phase.Reconciling?
    ensures var t := Step(s, Event.Reconciled(k, failure, change));
      var reply, o := s.calls[k].phase.reply, s.calls[k].options;
      && t.view == change(s.view) && t.pending == None && t.rolledBack == s.rolledBack && t.sent == s.sent
      && |t.calls| == |s.calls| && t.calls[k].phase == Finished(reply)
      && (reply.Success? && failure.None? ==> t.notice == s.notice && t.retry == s.retry)
      && (!(reply.Success? && failure.None?) ==>
            var e := if reply.Success? then failure.value else ErrorOf(reply);
            && t.retry == Some(Recheck(k))
            && t.notice == if LastOwner(e) then LastOwnerProtected
                           else if !reply.Success? && failure.None? && o.reconcileOnConflict && e.code == Conflict then Known(Conflict)
                           else ReconciliationRequired)
  {
    hide LastOwner, RefusalCode;
  }

  /** A recheck sends nothing: it waits with its own pending action and ends with the view read back and the same notice. */
  lemma RecheckExactly<V>(s: State<V>, k: nat, change: View<V> -> View<V>)
    requires Recheck(k) in s.shown
    ensures var t := Step(s, PressRecheck(k));
      var u := Step(t, Rechecked(change));
      && t.pending == Some("reconcile") && t.notice == NoNotice && t.view == s.view && t.calls == s.calls
      && u.view == change(s.view) && u.pending == None && u.notice == ReconciliationRequired && u.sent == s.sent
      && u.rechecks == s.rechecks && u.calls == s.calls && u.retry == s.retry
  {}

  /** A refresh of the whole panel clears notice and offer, and nothing else. */
  lemma DismissExactly<V>(s: State<V>)
    ensures Step(s, Event<V>.Dismiss) == s.(notice := NoNotice, retry := None)
  {}

  /** So an ambiguous outcome, once reconciled, well or badly, is on display as one to recheck. */
  lemma AmbiguousIsShown<V>(s: State<V>, k: nat, reply: Reply, failure: Option<ClientError>, f: View<V> -> View<V>,
                            g: View<V> -> View<V>)
    requires Inv(s) && k < |s.calls| && s.calls[k].phase.Operating? && s.calls[k].options.reconcile
    requires !reply.Success? && Ambiguous(ErrorOf(reply))
    ensures var t := Step(Step(s, Settle(k, reply, f)), Event.Reconciled(k, failure, g));
      && t.view == g(s.view) && t.notice == ReconciliationRequired && Displayed(t) == {Recheck(k)} && t.pending == None
  {
    hide RefusalCode, Inv;
    var t := Step(s, Settle(k, reply, f));
    SettleExactly(s, k, reply, f);
    ReconciledExactly(t, k, failure, g);
  }

  /** The replies a server that refuses only what it did not commit may give after committing. */
  predicate MayHaveCommitted(reply: Reply) {
    reply.Success? || reply.NoAnswer? || reply.Unreadable? || (reply.Refusal? && ServerFailure(reply.status))
  }

  /** The server failures whose code makes them look definite. */
  predicate LooksDefinite(o: Options, code: string) {
    || AsksRecentAuth(code) || NamesSession(code) || NamesExpiry(code)
    || (NamesConflict(code) && !o.reconcileOnConflict)
  }

  /** Exactly when a rollback may hide a commit: there is nothing to reconcile with, the request was cancelled in
      flight, or a server failure carries a code that is read as a definite refusal. */
  lemma RollbackMayHideCommit(o: Options, reply: Reply)
    requires MayHaveCommitted(reply)
    ensures RollsBack(o, reply) <==>
      !reply.Success? && (|| !o.reconcile
                          || reply == NoAnswer(true)
                          || (reply.Refusal? && LooksDefinite(o, reply.serverCode)))
  {
    hide AsksRecentAuth, NamesSession, NamesExpiry, NamesConflict, Contains, HasWord, LowerAll;
  }

  /** Exactly when a mutation that may have committed and was rolled back is also offered for another send: the caller
      gave a retry, and the request was cancelled in flight or the failure's code asks for a recent verification. */
  lemma LostCommitOffer<V>(s: State<V>, k: nat, reply: Reply, change: View<V> -> View<V>)
    requires Inv(s) && k < |s.calls| && s.calls[k].phase.Operating?
    requires MayHaveCommitted(reply) && RollsBack(s.calls[k].options, reply)
    ensures var t := Step(s, Settle(k, reply, change));
      ShowsOffer(t.notice) && t.retry == Some(Resend(k)) <==>
        s.calls[k].options.retry && (reply == NoAnswer(true) || (reply.Refusal? && AsksRecentAuth(reply.serverCode)))
  {
    hide AsksRecentAuth, NamesSession, NamesExpiry, NamesConflict, Contains, HasWord, LowerAll, Normalized, Inv, CallOk,
         ResourceError, LastOwner;
    NoticeOfLost(reply);
    assert OfferOk(s) by { OffersInv(s); }
  }

  lemma OffersInv<V>(s: State<V>) requires Inv(s) ensures OfferOk(s) {}

  /** The notice of a reply that may hide a commit shows an offer exactly in these cases, whatever its code. */
  lemma NoticeOfLost(reply: Reply)
    requires MayHaveCommitted(reply) && !reply.Success?
    ensures var notice := ResourceError(ErrorOf(reply));
      (ShowsOffer(notice) <==> reply == NoAnswer(true) || (reply.Refusal? && AsksRecentAuth(reply.serverCode)))
      && (ShowsOffer(notice) ==> Retryable(notice))
  {
    hide AsksRecentAuth, NamesSession, NamesExpiry, NamesConflict, Contains, HasWord, LowerAll, Normalized;
    NormalizedEmpty();
    if reply.Refusal? && AsksRecentAuth(reply.serverCode) {
      AskingHasH(reply.serverCode);
      InvitationCodesLackH();
    }
  }

  lemma NormalizedEmpty() ensures Normalized("") == "" {}

  const INVITATION_CODES: set<string> :=
    {"invitation_expired", "invitation_revoked", "invitation_already_accepted", "invitation_token_replayed",
     "invitation_invalid", "invitation_not_found", "resource_not_found", "not_found"}

  lemma InvitationCodesLackH()
    ensures forall c :: c in INVITATION_CODES ==> 'h' !in c
  {}

  lemma AskingHasH(code: string)
    requires AsksRecentAuth(code)
    ensures 'h' in Normalized(code)
  {
    hide Contains, LowerAll, Normalized;
    var c := LowerAll(code);
    var part :| part in ["recentauth", "recent_auth", "recent-auth", "reauth", "webauthn"] && Contains(c, part);
    assert 'h' in part;
    ContainsHas(c, part, 'h');
    NormalizedHas(code, 'h');
  }

  lemma {:induction false} ContainsHas(s: string, part: string, ch: char)
    requires Contains(s, part) && ch in part
    ensures ch in s
    decreases |s|
  {
    if part <= s {
      var i :| 0 <= i < |part| && part[i] == ch;
      assert s[i] == ch;
    } else {
      ContainsHas(s[1..], part, ch);
    }
  }

  lemma {:induction false} NormalizedHas(s: string, ch: char)
    requires ch in LowerAll(s) && ch !in ".-"
    ensures ch in Normalized(s)
  {
    if Lower(s[0]) != ch { NormalizedHas(s[1..], ch); }
  }

  lemma {:induction false} NormalizedLength(s: string)
    ensures |Normalized(s)| == |s|
  {
    if s != [] { NormalizedLength(s[1..]); }
  }

  lemma ReauthIsDefinite()
    ensures RefusalCode(503, "reauth") == RecentAuthRequired
  {
    hide Contains, LowerAll, NamesSession, NamesExpiry, NamesConflict;
    ReauthAsks();
  }

  lemma ReauthAsks()
    ensures AsksRecentAuth("reauth")
  {
    assert "reauth"[1..] == "eauth";
    assert "eauth"[1..] == "auth";
    assert "auth"[1..] == "uth";
    assert "uth"[1..] == "th";
    assert "th"[1..] == "h";
    assert LowerAll("h") == "h";
    assert LowerAll("reauth") == "reauth";
  }

  lemma ReauthNotice()
    ensures ResourceError(ClientError(RecentAuthRequired, Some(503), "reauth")) == Known(RecentAuthRequired)
  {
    hide Normalized, LastOwner;
    NormalizedLength("reauth");
    NotLastOwner(503, "reauth");
  }

  lemma NotLastOwner(status: nat, code: string)
    ensures !LastOwner(ClientError(RecentAuthRequired, Some(status), code))
  {}

  /** A lost commit can be rolled back and offered again although the call reconciles: a service failure whose code
      asks for a recent verification. */
  lemma LostCommitOfferedAgain<V>(view: View<V>, f: View<V> -> View<V>)
    ensures var o := Options(true, true, true, true);
      var reply := Refusal(503, "reauth");
      var s := Run(Initial(view), [Begin(None, "remove", o, view, f), Settle(0, reply, f)]);
      MayHaveCommitted(reply) && s.rolledBack == [0] && s.retry == Some(Resend(0)) && ShowsOffer(s.notice)
  {
    hide RefusalCode, ResourceError;
    ReauthIsDefinite();
    ReauthNotice();
    var o := Options(true, true, true, true);
    var first: Event<V> := Begin(None, "remove", o, view, f);
    var second: Event<V> := Settle(0, Refusal(503, "reauth"), f);
    var s := Step(Initial(view), first);
    assert [first, second][1..] == [second];
    assert Run(s, [second]) == Step(s, second);
  }

  // One activity at a time.

  ghost predicate InFlight<V>(s: State<V>, k: nat) {
    k < |s.calls| && !s.calls[k].phase.Finished?
  }

  /** At most one call or recheck is under way, the pending action says so, and then no button offers another. */
  ghost predicate OneAtATime<V>(s: State<V>) {
    && (forall j: nat, k: nat :: InFlight(s, j) && InFlight(s, k) ==> j == k)
    && s.rechecks <= 1
    && (s.rechecks == 1 ==> forall k: nat :: !InFlight(s, k))
    && (s.pending.Some? <==> s.rechecks == 1 || exists k: nat :: InFlight(s, k))
    && (s.pending.Some? ==> !ShowsOffer(s.notice))
  }

  /** A handler rendered while nothing was pending, or a button's, runs while nothing is pending, and a notice shown by
      another handler while something is pending offers nothing. */
  predicate Timely<V>(s: State<V>, e: Event<V>) {
    && (e.Begin? && e.rendered.None? ==> s.pending.None?)
    && (e.PressResend? && Resend(e.call) in s.shown && e.call < |s.calls| ==> s.pending.None?)
    && (e.PressRecheck? && Recheck(e.call) in s.shown ==> s.pending.None?)
    && (e.Remark? && s.pending.Some? ==> !ShowsOffer(e.remark))
  }

  /** A press of the button that the present state shows is timely. */
  lemma FreshPressIsTimely<V>(s: State<V>, e: Event<V>)
    requires OneAtATime(s)
    requires (e.PressResend? && Resend(e.call) in Displayed(s)) || (e.PressRecheck? && Recheck(e.call) in Displayed(s))
    ensures Timely(s, e)
  {}

  ghost predicate TimelyRun<V>(s: State<V>, es: seq<Event<V>>)
    decreases |es|
  {
    es == [] || (Timely(s, es[0]) && TimelyRun(Step(s, es[0]), es[1..]))
  }

  lemma StartedAlone<V>(s: State<V>, action: string, options: Options, captured: View<V>, optimistic: View<V> -> View<V>)
    requires OneAtATime(s) && s.pending.None?
    ensures OneAtATime(Started(s, action, options, captured, optimistic))
  {
    var t := Started(s, action, options, captured, optimistic);
    forall k: nat ensures InFlight(t, k) <==> k == |s.calls| {
      if k < |s.calls| { assert !InFlight(s, k); }
    }
    assert InFlight(t, |s.calls|);
  }

  lemma FinishedAlone<V>(s: State<V>, t: State<V>, k: nat)
    requires OneAtATime(s) && InFlight(s, k) && |t.calls| == |s.calls| && t.rechecks == s.rechecks
    requires forall j :: 0 <= j < |s.calls| && j != k ==> t.calls[j] == s.calls[j]
    requires t.calls[k].phase.Finished? && t.pending.None?
    ensures OneAtATime(t)
  {
    forall j: nat ensures !InFlight(t, j) {
      if j < |s.calls| && j != k { assert InFlight(s, j) ==> j == k; }
    }
  }

  lemma GoingOnAlone<V>(s: State<V>, t: State<V>, k: nat)
    requires OneAtATime(s) && InFlight(s, k) && |t.calls| == |s.calls| && t.rechecks == s.rechecks
    requires forall j :: 0 <= j < |s.calls| && j != k ==> t.calls[j] == s.calls[j]
    requires !t.calls[k].phase.Finished? && t.pending == s.pending && t.notice == s.notice
    ensures OneAtATime(t)
  {
    assert InFlight(t, k);
    assert forall j: nat :: InFlight(t, j) <==> InFlight(s, j);
  }

  /** Exactly the timely steps keep it. */
  lemma StepAloneExactly<V>(s: State<V>, e: Event<V>)
    requires OneAtATime(s)
    ensures OneAtATime(Step(s, e)) <==> Timely(s, e)
  {
    if Timely(s, e) { StepAlone(s, e); } else { UntimelyStep(s, e); }
  }

  lemma UntimelyStep<V>(s: State<V>, e: Event<V>)
    requires OneAtATime(s) && !Timely(s, e)
    ensures !OneAtATime(Step(s, e))
  {
    var t := Step(s, e);
    if e.Begin? || e.PressResend? {
      assert InFlight(t, |s.calls|);
      forall k: nat | InFlight(s, k) ensures InFlight(t, k) {}
    }
    if e.PressRecheck? {
      forall k: nat | InFlight(s, k) ensures InFlight(t, k) {}
    }
  }

  lemma StepAlone<V>(s: State<V>, e: Event<V>)
    requires OneAtATime(s) && Timely(s, e)
    ensures OneAtATime(Step(s, e))
  {
    hide RollsBack, ResourceError, ReconciledNotice, Retryable;
    var t := Step(s, e);
    match e
    case Begin(rendered, action, options, captured, optimistic) =>
      if rendered.None? { StartedAlone(s, action, options, captured, optimistic); }
    case PressResend(k, action, optimistic) =>
      if t != s { StartedAlone(s, action, s.calls[k].options, s.calls[k].captured, optimistic); }
    case Settle(k, reply, change) =>
      if k < |s.calls| && s.calls[k].phase.Operating? {
        assert InFlight(s, k);
        if t.calls[k].phase.Finished? { FinishedAlone(s, t, k); } else { GoingOnAlone(s, t, k); }
      }
    case Reconciled(k, failure, change) =>
      if k < |s.calls| && s.calls[k].phase.Reconciling? {
        assert InFlight(s, k);
        FinishedAlone(s, t, k);
      }
    case _ =>
      assert forall k: nat :: InFlight(t, k) <==> InFlight(s, k);
  }

  lemma {:induction false} RunAlone<V>(s: State<V>, es: seq<Event<V>>)
    requires OneAtATime(s) && TimelyRun(s, es)
    ensures OneAtATime(Run(s, es))
    decreases |es|
  {
    hide Step, OneAtATime;
    if es != [] {
      StepAlone(s, es[0]);
      RunAlone(Step(s, es[0]), es[1..]);
    }
  }

  /** After every step of the run, at most one activity. */
  ghost predicate AlwaysOneAtATime<V>(s: State<V>, es: seq<Event<V>>)
    decreases |es|
  {
    OneAtATime(s) && (es != [] ==> AlwaysOneAtATime(Step(s, es[0]), es[1..]))
  }

  /** A run never has two activities, in any of its states, if and only if every step of it is timely. */
  lemma {:induction false} RunAloneExactly<V>(s: State<V>, es: seq<Event<V>>)
    requires OneAtATime(s)
    ensures AlwaysOneAtATime(s, es) <==> TimelyRun(s, es)
    decreases |es|
  {
    hide Step, OneAtATime, Timely;
    if es != [] {
      StepAloneExactly(s, es[0]);
      if Timely(s, es[0]) { RunAloneExactly(Step(s, es[0]), es[1..]); }
    }
  }

  /** With timely handlers the panel never has two operations under way. */
  lemma OneOperationAtATime<V>(view: View<V>, es: seq<Event<V>>, j: nat, k: nat)
    requires TimelyRun(Initial(view), es)
    requires InFlight(Run(Initial(view), es), j) && InFlight(Run(Initial(view), es), k)
    ensures j == k && Run(Initial(view), es).pending.Some?
  {
    RunAlone(Initial(view), es);
  }

  /** The guard reads the rendered value: two handlers of one render both send. */
  lemma SameRenderSendsTwice<V>(view: View<V>, options: Options, f: View<V> -> View<V>)
    ensures var e: Event<V> := Begin(None, "a", options, view, f);
      var s := Run(Initial(view), [e, e]);
      InFlight(s, 0) && InFlight(s, 1) && s.sent == [0, 1]
  {
    var e: Event<V> := Begin(None, "a", options, view, f);
    assert [e, e][1..] == [e];
    assert Run(Step(Initial(view), e), [e]) == Step(Step(Initial(view), e), e);
  }

  /** So does a button: two presses of one rendered offer send twice, or recheck twice, whatever is pending by then. */
  lemma SameButtonRunsTwice<V>(s: State<V>, k: nat, action: string, f: View<V> -> View<V>)
    requires Inv(s)
    ensures Resend(k) in s.shown ==>
      var e: Event<V> := PressResend(k, action, f);
      var t := Step(Step(s, e), e);
      InFlight(t, |s.calls|) && InFlight(t, |s.calls| + 1) && t.sent == s.sent + [|s.calls|, |s.calls| + 1]
    ensures Recheck(k) in s.shown ==>
      var e: Event<V> := PressRecheck(k);
      Step(Step(s, e), e).rechecks == s.rechecks + 2
  {
    if Resend(k) in s.shown { assert OfferFor(s, Resend(k)); }
  }

  /** The panel's own state; `sent` and `rolledBack` only record. */
  class OrganizationPanel<V> {
    var view: View<V>
    var pendingAction: Option<string>
    var mutationError: Notice
    var retryAction: Option<Offer>
    var rechecks: nat
    var shown: set<Offer>
    var calls: seq<Call<V>>
    var sent: seq<nat>
    var rolledBack: seq<nat>

    function Abstract(): State<V>
      reads this
    {
      State(view, pendingAction, mutationError, retryAction, rechecks, shown, calls, sent, rolledBack)
    }

    constructor (initial: View<V>)
      ensures Abstract() == Initial(initial) && Inv(Abstract())
    {
      view, pendingAction, mutationError, retryAction, rechecks := initial, None, NoNotice, None, 0;
      shown, calls, sent, rolledBack := {}, [], [], [];
    }

    /** Up to the operation's await. */
    method RunMutation(rendered: Option<string>, action: string, options: Options, captured: View<V>, optimistic: View<V> -> View<V>)
      requires Inv(Abstract())
      modifies this
      ensures Inv(Abstract())
      ensures Abstract() == Step(old(Abstract()), Begin(rendered, action, options, captured, optimistic))
    {
      hide Inv;
      ghost var was := Abstract();
      StepKeeps(was, Begin(rendered, action, options, captured, optimistic));
      if rendered != None { return; }
      pendingAction := Some(action);
      mutationError := NoNotice;
      retryAction := None;
      if options.optimistic { view := optimistic(view); }
      calls, sent := calls + [Call(options, captured, Operating)], sent + [|calls|];
    }

    /** From the operation's await to the reconciliation's, or to the end. */
    method OperationSettled(k: nat, reply: Reply, change: View<V> -> View<V>)
      requires Inv(Abstract()) && k < |calls| && calls[k].phase.Operating?
      modifies this
      ensures Inv(Abstract())
      ensures Abstract() == Step(old(Abstract()), Settle(k, reply, change))
    {
      hide Contains, Normalized, RefusalCode, LastOwner, ReconciledNotice, Inv;
      ghost var was := Abstract();
      StepKeeps(was, Settle(k, reply, change));
      var call := calls[k];
      var options := call.options;
      if reply.Success? {
        view := change(view);
        if options.reconcile {
          calls := calls[k := call.(phase := Reconciling(reply))];
          return;
        }
        calls := calls[k := call.(phase := Finished(reply))];
        pendingAction := None;
        return;
      }
      var error := ErrorOf(reply);
      var ambiguous := Ambiguous(error);
      var knownConcurrent := options.reconcileOnConflict && error.code.Conflict?;
      if options.reconcile && (ambiguous || knownConcurrent) {
        calls := calls[k := call.(phase := Reconciling(reply))];
        return;
      }
      if options.optimistic { view := view + call.captured; }
      rolledBack := rolledBack + [k];
      mutationError := ResourceError(error);
      if options.retry && Retryable(mutationError) { retryAction := Some(Resend(k)); }
      calls := calls[k := call.(phase := Finished(reply))];
      pendingAction := None;
    }

    /** From the reconciliation's await to the end. */
    method ReconcileSettled(k: nat, failure: Option<ClientError>, change: View<V> -> View<V>) returns (ok: bool)
      requires Inv(Abstract()) && k < |calls| && calls[k].phase.Reconciling?
      modifies this
      ensures Inv(Abstract())
      ensures Abstract() == Step(old(Abstract()), Event.Reconciled(k, failure, change))
      ensures ok <==> old(calls[k].phase.reply.Success?) && failure.None?
    {
      hide Contains, Normalized, RefusalCode, LastOwner, Inv, RollsBack;
      ghost var was := Abstract();
      StepKeeps(was, Event.Reconciled(k, failure, change));
      var call := calls[k];
      var reply := call.phase.reply;
      calls := calls[k := call.(phase := Finished(reply))];
      view := change(view);
      pendingAction := None;
      if reply.Success? && failure.None? { return true; }
      mutationError := ReconciledNotice(call.options, reply, failure);
      retryAction := Some(Recheck(k));
      return false;
    }

    /** The notice's button, as a render shows it. */
    method RenderNotice() returns (button: Option<Offer>)
      requires Inv(Abstract())
      modifies this`shown
      ensures Inv(Abstract()) && Abstract() == Step(old(Abstract()), Event.Render)
      ensures button.Some? <==>
        retryAction.Some? && mutationError in {ReconciliationRequired, Known(Aborted), Known(RecentAuthRequired)}
      ensures button.Some? ==> button == retryAction
      ensures button.Some? <==> Displayed(Abstract()) != {}
      ensures button.Some? ==> Displayed(Abstract()) == {button.value}
    {
      hide Inv;
      StepKeeps(Abstract(), Event.Render);
      if retryAction.None? || !ShowsOffer(mutationError) { return None; }
      shown := shown + {retryAction.value};
      return retryAction;
    }

    /** A press of a rendered button: the handler's own guard reads a render in which nothing was pending. */
    method Press(offer: Offer, action: string, optimistic: View<V> -> View<V>)
      requires Inv(Abstract()) && offer in shown
      modifies this
      ensures Inv(Abstract())
      ensures Abstract() == Step(old(Abstract()), if offer.Resend? then Event.PressResend(offer.call, action, optimistic)
                                                  else Event.PressRecheck(offer.call))
    {
      assert OfferFor(Abstract(), offer);
      if offer.Resend? {
        StepKeeps(Abstract(), Event.PressResend(offer.call, action, optimistic));
        RunMutation(None, action, calls[offer.call].options, calls[offer.call].captured, optimistic);
        return;
      }
      StepKeeps(Abstract(), Event.PressRecheck(offer.call));
      pendingAction := Some("reconcile");
      mutationError := NoNotice;
      rechecks := rechecks + 1;
    }

    /** The end of a recheck, well or badly. */
    method RecheckSettled(change: View<V> -> View<V>)
      requires Inv(Abstract()) && rechecks > 0
      modifies this
      ensures Inv(Abstract()) && Abstract() == Step(old(Abstract()), Event.Rechecked(change))
    {
      StepKeeps(Abstract(), Event.Rechecked(change));
      view := change(view);
      mutationError := ReconciliationRequired;
      pendingAction := None;
      rechecks := rechecks - 1;
    }
  }
}
