/** The identity of the process behind a bridge connection, and its revalidation. */
module BridgePeer {
  import opened Common

  datatype BridgeError =
    | InvalidRequest | InvalidSessionState | PeerIdentityMismatch | ProcessIdentityChanged | CodeIdentityDenied
    | RequestAuthenticationFailed | RequestReplay | RequestSequenceMismatch | BudgetExhausted | SessionClosed

  datatype Facts = Facts(
    pid: int, pidVersion: nat, uid: nat, boot: Bytes, executable: Bytes, codeDirectoryHash: Bytes,
    bundle: Option<Bytes>, team: Option<Bytes>, signatureKind: Bytes, entitlements: Bytes)

  datatype Ancestor = Unknown | Observed(facts: Facts)

  datatype ProcessIdentity = ProcessIdentity(process: Facts, ancestry: seq<Ancestor>)

  datatype Reason =
    | UidMismatch | PidMismatch | PidReused | BootIdentityChanged | ExecutableFileIdentityChanged
    | CodeDirectoryHashChanged | BundleIdentifierMismatch | TeamIdentifierMismatch | SignatureKindMismatch
    | EntitlementMismatch | ParentDied | AncestorChainSubstitution | UnknownAncestor | AncestorPidReused

  predicate AllObserved(ancestry: seq<Ancestor>) { forall i :: 0 <= i < |ancestry| ==> ancestry[i].Observed? }

  /** What a revalidation without denial reasons amounts to. */
  predicate Unchanged(captured: ProcessIdentity, current: ProcessIdentity) {
    captured == current && AllObserved(captured.ancestry)
  }

  method CompareAncestry(expected: seq<Ancestor>, current: seq<Ancestor>) returns (reasons: seq<Reason>)
    ensures reasons == [] <==> expected == current && AllObserved(expected)
  {
    reasons := [];
    if |current| < |expected| { reasons := Append(reasons, ParentDied); }
    if |current| > |expected| { reasons := Append(reasons, AncestorChainSubstitution); }
    if expected == [] && current != [] { reasons := Append(reasons, AncestorChainSubstitution); }
    var common := if |expected| < |current| then |expected| else |current|;
    for index := 0 to common
      invariant reasons == [] <==>
        |expected| == |current| && forall i :: 0 <= i < index ==> expected[i] == current[i] && expected[i].Observed?
    {
      match (expected[index], current[index]) {
        case (Unknown, _) => reasons := Append(reasons, UnknownAncestor);
        case (_, Unknown) => reasons := Append(reasons, UnknownAncestor);
        case (Observed(e), Observed(c)) =>
          if e.pid == c.pid && e.pidVersion != c.pidVersion {
            reasons := Append(reasons, AncestorPidReused);
          } else if e != c {
            reasons := Append(reasons, AncestorChainSubstitution);
          }
      }
    }
  }

  function Append(reasons: seq<Reason>, reason: Reason): (r: seq<Reason>)
    ensures r != [] && reason in r && forall x :: x in reasons ==> x in r
  {
    if reason in reasons then reasons else reasons + [reason]
  }

  /** Denies unless every fact and every ordered ancestor is the same and every ancestor is known: an identity
      captured with an unknown ancestor is denied even when nothing changed. */
  method DenialReasons(captured: ProcessIdentity, current: ProcessIdentity) returns (reasons: seq<Reason>)
    ensures reasons == [] <==> Unchanged(captured, current)
  {
    var a, b := captured.process, current.process;
    reasons := [];
    if a.uid != b.uid { reasons := Append(reasons, UidMismatch); }
    if a.pid != b.pid { reasons := Append(reasons, PidMismatch); }
    if a.pid == b.pid && a.pidVersion != b.pidVersion { reasons := Append(reasons, PidReused); }
    if a.boot != b.boot { reasons := Append(reasons, BootIdentityChanged); }
    if a.executable != b.executable { reasons := Append(reasons, ExecutableFileIdentityChanged); }
    if a.codeDirectoryHash != b.codeDirectoryHash { reasons := Append(reasons, CodeDirectoryHashChanged); }
    if a.bundle != b.bundle { reasons := Append(reasons, BundleIdentifierMismatch); }
    if a.team != b.team { reasons := Append(reasons, TeamIdentifierMismatch); }
    if a.signatureKind != b.signatureKind { reasons := Append(reasons, SignatureKindMismatch); }
    if a.entitlements != b.entitlements { reasons := Append(reasons, EntitlementMismatch); }
    var ancestryReasons := CompareAncestry(captured.ancestry, current.ancestry);
    for i := 0 to |ancestryReasons|
      invariant reasons == [] <==> a == b && i == 0
    {
      reasons := Append(reasons, ancestryReasons[i]);
    }
  }

  datatype Context = Context(pid: int, effectiveUserID: nat, pidVersion: nat, auditSession: nat, tokenIdentity: Bytes)

  /** A policy decides on the identity alone. */
  type Policy = ProcessIdentity -> bool

  datatype PeerBinding = PeerBinding(
    context: Context, identity: ProcessIdentity, policy: Policy, processHash: Bytes, ancestryHash: Bytes)

  predicate SameConnection(context: Context, identity: ProcessIdentity) {
    && identity.process.pid == context.pid
    && identity.process.uid == context.effectiveUserID
    && identity.process.pidVersion == context.pidVersion
  }

  /** The checks under which a binding is created. */
  predicate Bound(peer: PeerBinding) {
    SameConnection(peer.context, peer.identity) && peer.policy(peer.identity)
  }

  /** A bound peer passes exactly when connection and process are those captured and no ancestor is unknown. */
  function Revalidate(peer: PeerBinding, context: Context, observed: ProcessIdentity): (r: Option<BridgeError>)
    ensures Bound(peer) ==>
      (r == None <==> context == peer.context && observed == peer.identity && AllObserved(peer.identity.ancestry))
  {
    if context != peer.context then Some(PeerIdentityMismatch)
    else if !SameConnection(peer.context, observed) then Some(PeerIdentityMismatch)
    else if !Unchanged(peer.identity, observed) then Some(ProcessIdentityChanged)
    else if !peer.policy(observed) then Some(CodeIdentityDenied)
    else None
  }

  /** Why a bound peer is refused: another connection, or a process of other numbers than the connection's, is a mismatch;
      anything else that differs, and an unknown ancestor, is a change. Its policy is never the reason. */
  lemma RevalidationErrors(peer: PeerBinding, context: Context, observed: ProcessIdentity)
    requires Bound(peer)
    ensures var r := Revalidate(peer, context, observed);
      var sameNumbers := observed.process.pid == peer.context.pid && observed.process.uid == peer.context.effectiveUserID
                         && observed.process.pidVersion == peer.context.pidVersion;
      && (r == Some(PeerIdentityMismatch) <==> context != peer.context || !sameNumbers)
      && (r == Some(ProcessIdentityChanged) <==>
            && context == peer.context && sameNumbers
            && (observed != peer.identity || exists i :: 0 <= i < |observed.ancestry| && observed.ancestry[i] == Unknown))
      && (r.Some? ==> r.value == PeerIdentityMismatch || r.value == ProcessIdentityChanged)
  {
    if exists i :: 0 <= i < |observed.ancestry| && observed.ancestry[i] == Unknown {
      var i :| 0 <= i < |observed.ancestry| && observed.ancestry[i] == Unknown;
      assert !observed.ancestry[i].Observed?;
    }
  }
}
