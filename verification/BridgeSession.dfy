/** One authenticated Git bridge session: its requests, its state machine and the shared signature budget.

    Hashing and the MAC are uninterpreted: only the sizes of their results are used, and wherever the MAC's
    collision freedom matters it is a stated assumption. */
module BridgeSession {
  import opened Common
  import opened BridgeEncoding
  import opened BridgePeer

  type Proof = seq<bv8>

  datatype Crypto = Crypto(sha256: Bytes -> Bytes, hmac: (Bytes, Bytes) -> Proof)

  const MAX_REQUESTS: nat := 64
  const MAX_PAYLOAD_BYTES: nat := 1024 * 1024
  const PROOF_BYTES: nat := 32
  const MIN_NONCE_BYTES: nat := 16
  const MAX_NONCE_BYTES: nat := 64

  ghost predicate FixedSizes(c: Crypto) {
    && (forall d: Bytes :: |c.sha256(d)| == 32)
    && (forall k: Bytes, d: Bytes :: |c.hmac(k, d)| == PROOF_BYTES)
  }

  // Session identifiers.

  predicate IsHexDigit(b: Byte) { 48 <= b <= 57 || 65 <= b <= 70 || 97 <= b <= 102 }

  predicate IsHyphenPosition(i: int) { i == 8 || i == 13 || i == 18 || i == 23 }

  predicate IsUUID(s: Bytes) {
    |s| == 36 && forall i :: 0 <= i < 36 ==> if IsHyphenPosition(i) then s[i] == 45 else IsHexDigit(s[i])
  }

  function LowerByte(b: Byte): Byte { if 65 <= b <= 90 then b + 32 else b }

  function Lower(s: Bytes): Bytes { seq(|s|, i requires 0 <= i < |s| => LowerByte(s[i])) }

  /** The canonical form is a fixed point: canonicalising or lower-casing it again changes nothing. */
  function CanonicalUUID(s: Bytes): (r: Option<Bytes>)
    ensures r.Some? <==>
      |s| == 36 && forall i :: 0 <= i < 36 ==>
        if i in {8, 13, 18, 23} then s[i] == 45 else 48 <= s[i] <= 57 || 65 <= s[i] <= 70 || 97 <= s[i] <= 102
    ensures r.Some? <==> IsUUID(s)
    ensures r.Some? ==> IsUUID(r.value) && Lower(r.value) == r.value
    ensures r.Some? ==> forall i :: 0 <= i < 36 ==> r.value[i] == if 65 <= s[i] <= 70 then s[i] + 32 else s[i]
  {
    if IsUUID(s) then Some(Lower(s)) else None
  }

  lemma CanonicalTwice(s: Bytes)
    requires CanonicalUUID(s).Some?
    ensures CanonicalUUID(CanonicalUUID(s).value) == CanonicalUUID(s)
  {}

  // Requests.

  datatype Request = Request(sessionID: Bytes, sequence: nat, payload: Bytes, payloadDigest: Bytes, proof: Proof)

  predicate ValidPayload(payload: Bytes) { 0 < |payload| <= MAX_PAYLOAD_BYTES }

  predicate ValidSequence(n: nat) { 1 <= n <= MAX_REQUESTS }

  /** Requests exist only as results of their initialiser, so every request satisfies this. */
  predicate WellFormed(c: Crypto, r: Request) {
    && IsUUID(r.sessionID) && Lower(r.sessionID) == r.sessionID && ValidSequence(r.sequence)
    && ValidPayload(r.payload) && r.payloadDigest == c.sha256(r.payload) && |r.proof| == PROOF_BYTES
  }

  function InitRequest(c: Crypto, sessionID: Bytes, sequence: nat, payload: Bytes, proof: Proof): (r: Option<Request>)
    ensures r.Some? ==> WellFormed(c, r.value)
    ensures r.Some? <==> IsUUID(sessionID) && 1 <= sequence <= 64 && 1 <= |payload| <= 0x10_0000 && |proof| == 32
    ensures r.Some? ==>
      && CanonicalUUID(sessionID) == Some(r.value.sessionID) && r.value.sequence == sequence
      && r.value.payload == payload && r.value.payloadDigest == c.sha256(payload) && r.value.proof == proof
  {
    match CanonicalUUID(sessionID)
    case None => None
    case Some(id) =>
      if ValidSequence(sequence) && ValidPayload(payload) && |proof| == PROOF_BYTES
      then Some(Request(id, sequence, payload, c.sha256(payload), proof))
      else None
  }

  function FieldsOf(r: Request, peer: PeerBinding): AuthFields {
    AuthFields(r.sessionID, r.sequence, r.payloadDigest, peer.context.tokenIdentity, peer.processHash, peer.ancestryHash)
  }

  predicate EncodablePeer(peer: PeerBinding) {
    |peer.context.tokenIdentity| < TWO32 && |peer.processHash| < TWO32 && |peer.ancestryHash| < TWO32
  }

  lemma RequestEncodable(c: Crypto, r: Request, peer: PeerBinding)
    requires FixedSizes(c) && WellFormed(c, r) && EncodablePeer(peer)
    ensures Encodable(FieldsOf(r, peer))
  {
    assert |c.sha256(r.payload)| == 32;
  }

  ghost function ProofFor(c: Crypto, key: Bytes, r: Request, peer: PeerBinding): (p: Proof)
    requires FixedSizes(c) && WellFormed(c, r) && EncodablePeer(peer)
    ensures |p| == PROOF_BYTES
  {
    RequestEncodable(c, r, peer);
    c.hmac(key, AuthenticationData(FieldsOf(r, peer)))
  }

  ghost predicate Authentic(c: Crypto, key: Bytes, r: Request, expectedSessionID: Bytes, peer: PeerBinding)
    requires FixedSizes(c) && WellFormed(c, r) && EncodablePeer(peer)
  {
    r.sessionID == Lower(expectedSessionID) && r.proof == ProofFor(c, key, r, peer)
  }

  /** The comparison that reads every byte: its accumulator is zero exactly when the proofs are equal. */
  method SameProof(expected: Proof, actual: Proof) returns (same: bool)
    ensures same <==> expected == actual
  {
    if |expected| != |actual| { return false; }
    var difference: bv8 := 0;
    for index := 0 to |expected|
      invariant difference == 0 <==> expected[..index] == actual[..index]
    {
      OrOfXor(difference, expected[index], actual[index]);
      difference := difference | (expected[index] ^ actual[index]);
      assert expected[..index + 1] == expected[..index] + [expected[index]];
      assert actual[..index + 1] == actual[..index] + [actual[index]];
    }
    assert expected[..|expected|] == expected && actual[..|expected|] == actual;
    return difference == 0;
  }

  lemma OrOfXor(d: bv8, x: bv8, y: bv8)
    ensures d | (x ^ y) == 0 <==> d == 0 && x == y
  {}

  method Verify(c: Crypto, key: Bytes, r: Request, expectedSessionID: Bytes, peer: PeerBinding) returns (ok: bool)
    requires FixedSizes(c) && WellFormed(c, r) && EncodablePeer(peer)
    ensures ok <==> Authentic(c, key, r, expectedSessionID, peer)
  {
    if r.sessionID != Lower(expectedSessionID) { return false; }
    RequestEncodable(c, r, peer);
    var data := BuildAuthenticationData(FieldsOf(r, peer));
    ok := SameProof(c.hmac(key, data), r.proof);
  }

  /** The request for a session is authentic for that session, and carries what was asked for. */
  method MakeSignRequest(c: Crypto, key: Bytes, sessionID: Bytes, sequence: nat, payload: Bytes, peer: PeerBinding)
    returns (r: Option<Request>)
    requires FixedSizes(c) && EncodablePeer(peer)
    ensures r.Some? <==> IsUUID(sessionID) && ValidSequence(sequence) && ValidPayload(payload)
    ensures r.Some? ==>
      && WellFormed(c, r.value) && r.value.sequence == sequence && r.value.payload == payload
      && CanonicalUUID(sessionID) == Some(r.value.sessionID)
      && Authentic(c, key, r.value, r.value.sessionID, peer)
  {
    var canonical := CanonicalUUID(sessionID);
    if canonical.None? { return None; }
    CanonicalTwice(sessionID);
    var unsigned := InitRequest(c, canonical.value, sequence, payload, seq(PROOF_BYTES, _ => 0 as bv8));
    if unsigned.None? { return None; }
    RequestEncodable(c, unsigned.value, peer);
    var data := BuildAuthenticationData(FieldsOf(unsigned.value, peer));
    var proof := c.hmac(key, data);
    r := InitRequest(c, unsigned.value.sessionID, unsigned.value.sequence, unsigned.value.payload, proof);
    assert FieldsOf(r.value, peer) == FieldsOf(unsigned.value, peer);
  }

  /** If the MAC does not collide on the two inputs, a proof made for one request and peer authenticates no other
      session, sequence number, payload digest or peer. */
  lemma ProofBindsEverything(c: Crypto, key: Bytes, r: Request, peer: PeerBinding, made: Request, madePeer: PeerBinding)
    requires FixedSizes(c) && WellFormed(c, r) && WellFormed(c, made) && EncodablePeer(peer) && EncodablePeer(madePeer)
    requires Encodable(FieldsOf(r, peer)) && Encodable(FieldsOf(made, madePeer))
    requires var x, y := AuthenticationData(FieldsOf(r, peer)), AuthenticationData(FieldsOf(made, madePeer));
             c.hmac(key, x) == c.hmac(key, y) ==> x == y
    requires made.proof == ProofFor(c, key, made, madePeer) && r.proof == made.proof
    ensures Authentic(c, key, r, r.sessionID, peer) <==>
      && r.sessionID == made.sessionID && r.sequence == made.sequence && r.payloadDigest == made.payloadDigest
      && peer.context.tokenIdentity == madePeer.context.tokenIdentity
      && peer.processHash == madePeer.processHash && peer.ancestryHash == madePeer.ancestryHash
  {
    AuthenticationDataInjective(FieldsOf(r, peer), FieldsOf(made, madePeer));
  }

  // The state machine on values.

  datatype Phase = New | Prepared | Attached | Closed

  datatype Session = Session(
    id: Bytes, peer: PeerBinding, childPolicy: Policy, key: Bytes,
    phase: Phase, nonceDigest: Option<Bytes>, consumed: set<nat>)

  datatype Ledger = Ledger(max: nat, used: nat)

  datatype AuthorizedPayload = AuthorizedPayload(
    sessionID: Bytes, sequence: nat, payload: Bytes, payloadDigest: Bytes, processHash: Bytes, context: Context)

  datatype Outcome<+T> = Allowed(value: T) | Denied(error: BridgeError)

  predicate ValidLedger(l: Ledger) { 1 <= l.max <= MAX_REQUESTS && l.used <= l.max }

  predicate ValidSession(s: Session) { IsUUID(s.id) && Lower(s.id) == s.id && Bound(s.peer) && EncodablePeer(s.peer) }

  /** The error of an operation that finds the session in the wrong phase. */
  function WrongPhase(phase: Phase): BridgeError { if phase == Closed then SessionClosed else InvalidSessionState }

  function PrepareSession(c: Crypto, s: Session, nonce: Bytes): (Session, Outcome<()>) {
    if s.phase == New && MIN_NONCE_BYTES <= |nonce| <= MAX_NONCE_BYTES
    then (s.(nonceDigest := Some(c.sha256(nonce)), phase := Prepared), Allowed(()))
    else (s, Denied(WrongPhase(s.phase)))
  }

  function AttachSession(s: Session, child: ProcessIdentity): (Session, Outcome<()>) {
    if s.phase != Prepared then (s, Denied(WrongPhase(s.phase)))
    else if !s.childPolicy(child) then (s.(phase := Closed), Denied(CodeIdentityDenied))
    else (s.(phase := Attached), Allowed(()))
  }

  /** What preparing and attaching answer: they are allowed exactly in turn, with a nonce of legal length and with a child
      the policy allows; a closed session says so, and any other call out of turn is an invalid state. */
  lemma LaunchOutcomes(c: Crypto, s: Session, nonce: Bytes, child: ProcessIdentity)
    ensures var p := PrepareSession(c, s, nonce).1;
      && (p == Allowed(()) <==> s.phase == New && 16 <= |nonce| <= 64)
      && (p.Denied? ==> p.error == if s.phase == Closed then SessionClosed else InvalidSessionState)
    ensures var a := AttachSession(s, child).1;
      && (a == Allowed(()) <==> s.phase == Prepared && s.childPolicy(child))
      && (a == Denied(CodeIdentityDenied) <==> s.phase == Prepared && !s.childPolicy(child))
      && (s.phase == Closed ==> a == Denied(SessionClosed))
      && (s.phase == New || s.phase == Attached ==> a == Denied(InvalidSessionState))
  {}

  /** Every check on a request before the budget is touched, in the order the source makes them. */
  ghost function CheckRequest(c: Crypto, s: Session, r: Request, context: Context, observed: ProcessIdentity)
    : Option<BridgeError>
    requires FixedSizes(c) && ValidSession(s) && WellFormed(c, r)
  {
    if r.sessionID != s.id then Some(RequestAuthenticationFailed)
    else if r.sequence in s.consumed then Some(RequestReplay)
    else if r.sequence != |s.consumed| + 1 then Some(RequestSequenceMismatch)
    else if Revalidate(s.peer, context, observed).Some? then Revalidate(s.peer, context, observed)
    else if !Authentic(c, s.key, r, s.id, s.peer) then Some(RequestAuthenticationFailed)
    else None
  }

  function PayloadOf(s: Session, r: Request): AuthorizedPayload {
    AuthorizedPayload(s.id, r.sequence, r.payload, r.payloadDigest, s.peer.processHash, s.peer.context)
  }

  /** A whole call with nothing in between: new session, new ledger, outcome. */
  ghost function Authorize(c: Crypto, s: Session, l: Ledger, r: Request, context: Context, observed: ProcessIdentity)
    : (Session, Ledger, Outcome<AuthorizedPayload>)
    requires FixedSizes(c) && ValidSession(s) && WellFormed(c, r)
  {
    if s.phase != Attached then (s, l, Denied(WrongPhase(s.phase)))
    else match CheckRequest(c, s, r, context, observed)
      case Some(error) => (s.(phase := Closed), l, Denied(error))
      case None =>
        if l.used < l.max
        then (s.(consumed := s.consumed + {r.sequence}), l.(used := l.used + 1), Allowed(PayloadOf(s, r)))
        else (s.(phase := Closed), l, Denied(BudgetExhausted))
  }

  // The objects.

  class SignatureBudgetLedger {
    const max: nat
    var used: nat

    ghost predicate Valid() reads this { ValidLedger(View()) }

    ghost function View(): Ledger reads this { Ledger(max, used) }

    constructor (max: nat, used: nat)
      requires 1 <= max <= MAX_REQUESTS && used <= max
      ensures Valid() && View() == Ledger(max, used)
    {
      this.max := max;
      this.used := used;
    }

    method Remaining() returns (remaining: nat)
      requires Valid()
      ensures remaining == max - used
    {
      remaining := max - used;
    }

    /** Takes one signature, or reports exhaustion and takes none; never passes the maximum. */
    method Reserve() returns (reserved: bool)
      requires Valid()
      modifies this
      ensures Valid() && reserved == (old(used) < max)
      ensures used == old(used) + if reserved then 1 else 0
    {
      reserved := used < max;
      if reserved { used := used + 1; }
    }
  }

  class AuthenticatedGitBridgeSession {
    const crypto: Crypto
    const sessionID: Bytes
    const peer: PeerBinding
    const childPolicy: Policy
    const key: Bytes
    const signatureBudget: SignatureBudgetLedger
    var phase: Phase
    var launchNonceDigest: Option<Bytes>
    var consumedSequences: set<nat>

    ghost function View(): Session reads this {
      Session(sessionID, peer, childPolicy, key, phase, launchNonceDigest, consumedSequences)
    }

    ghost predicate Valid() reads this, signatureBudget {
      FixedSizes(crypto) && ValidSession(View()) && signatureBudget.Valid()
    }

    constructor (crypto: Crypto, id: Bytes, peer: PeerBinding, childPolicy: Policy, budget: SignatureBudgetLedger,
                 key: Bytes)
      requires FixedSizes(crypto) && IsUUID(id) && Lower(id) == id && Bound(peer) && EncodablePeer(peer) && budget.Valid()
      ensures Valid() && this.crypto == crypto && signatureBudget == budget
      ensures View() == Session(id, peer, childPolicy, key, New, None, {})
    {
      this.crypto := crypto;
      sessionID := id;
      this.peer := peer;
      this.childPolicy := childPolicy;
      this.key := key;
      signatureBudget := budget;
      phase := New;
      launchNonceDigest := None;
      consumedSequences := {};
    }

    method Prepare(launchNonce: Bytes) returns (outcome: Outcome<()>)
      requires Valid()
      modifies this
      ensures Valid() && (View(), outcome) == PrepareSession(crypto, old(View()), launchNonce)
    {
      if !(phase == New && MIN_NONCE_BYTES <= |launchNonce| <= MAX_NONCE_BYTES) { return Denied(WrongPhase(phase)); }
      launchNonceDigest := Some(crypto.sha256(launchNonce));
      phase := Prepared;
      return Allowed(());
    }

    method Attach(child: ProcessIdentity) returns (outcome: Outcome<()>)
      requires Valid()
      modifies this
      ensures Valid() && (View(), outcome) == AttachSession(old(View()), child)
    {
      if phase != Prepared { return Denied(WrongPhase(phase)); }
      if !childPolicy(child) {
        phase := Closed;
        return Denied(CodeIdentityDenied);
      }
      phase := Attached;
      return Allowed(());
    }

    method MakeRequest(sequence: nat, payload: Bytes) returns (r: Option<Request>)
      requires Valid()
      ensures r.Some? <==>
        && phase == Attached && sequence !in consumedSequences && ValidSequence(sequence) && ValidPayload(payload)
        && signatureBudget.used < signatureBudget.max
      ensures r.Some? ==>
        && WellFormed(crypto, r.value) && r.value.sequence == sequence && r.value.payload == payload
        && r.value.sessionID == sessionID && Authentic(crypto, key, r.value, sessionID, peer)
    {
      var remaining := signatureBudget.Remaining();
      if !(phase == Attached && sequence !in consumedSequences && ValidSequence(sequence) && remaining > 0) { return None; }
      r := MakeSignRequest(crypto, key, sessionID, sequence, payload, peer);
    }

    method AuthorizeAndConsume(r: Request, context: Context, observed: ProcessIdentity)
      returns (outcome: Outcome<AuthorizedPayload>)
      requires Valid() && WellFormed(crypto, r)
      modifies this, signatureBudget
      ensures Valid()
      ensures (View(), signatureBudget.View(), outcome)
           == Authorize(crypto, old(View()), old(signatureBudget.View()), r, context, observed)
    {
      if phase != Attached { return Denied(WrongPhase(phase)); }
      if r.sessionID != sessionID {
        phase := Closed;
        return Denied(RequestAuthenticationFailed);
      }
      if r.sequence in consumedSequences {
        phase := Closed;
        return Denied(RequestReplay);
      }
      if r.sequence != |consumedSequences| + 1 {
        phase := Closed;
        return Denied(RequestSequenceMismatch);
      }
      var invalid := RevalidatePeer(peer, context, observed);
      if invalid.Some? {
        phase := Closed;
        return Denied(invalid.value);
      }
      var verified := Verify(crypto, key, r, sessionID, peer);
      if !verified {
        phase := Closed;
        return Denied(RequestAuthenticationFailed);
      }
      var reserved := signatureBudget.Reserve();
      if !reserved {
        phase := Closed;
        return Denied(BudgetExhausted);
      }
      consumedSequences := consumedSequences + {r.sequence};
      return Allowed(AuthorizedPayload(sessionID, r.sequence, r.payload, r.payloadDigest, peer.processHash, peer.context));
    }

    method Close()
      requires Valid()
      modifies this
      ensures Valid() && View() == old(View()).(phase := Closed)
    {
      phase := Closed;
    }
  }

  /** A ledger exists exactly for the budgets that the lease codec's bound allows. */
  method OpenLedger(max: int, used: int) returns (ledger: Option<SignatureBudgetLedger>)
    ensures ledger.Some? <==> 1 <= max <= MAX_REQUESTS && 0 <= used <= max
    ensures ledger.Some? ==> fresh(ledger.value) && ledger.value.Valid() && ledger.value.View() == Ledger(max, used)
  {
    if !(1 <= max <= MAX_REQUESTS) || !(0 <= used <= max) { return None; }
    var made := new SignatureBudgetLedger(max, used);
    ledger := Some(made);
  }

  /** A session opens exactly for a well-formed identifier, and under its canonical form. */
  method OpenSession(crypto: Crypto, id: Bytes, peer: PeerBinding, childPolicy: Policy, budget: SignatureBudgetLedger,
                     key: Bytes) returns (result: Outcome<AuthenticatedGitBridgeSession>)
    requires FixedSizes(crypto) && Bound(peer) && EncodablePeer(peer) && budget.Valid()
    ensures result.Allowed? <==> IsUUID(id)
    ensures result.Denied? ==> result.error == InvalidRequest
    ensures result.Allowed? ==>
      && fresh(result.value) && result.value.Valid() && result.value.signatureBudget == budget
      && result.value.View() == Session(Lower(id), peer, childPolicy, key, New, None, {})
  {
    var canonical := CanonicalUUID(id);
    if canonical.None? { return Denied(InvalidRequest); }
    var session := new AuthenticatedGitBridgeSession(crypto, canonical.value, peer, childPolicy, budget, key);
    return Allowed(session);
  }

  method RevalidatePeer(peer: PeerBinding, context: Context, observed: ProcessIdentity) returns (e: Option<BridgeError>)
    ensures e == Revalidate(peer, context, observed)
  {
    if context != peer.context || !SameConnection(peer.context, observed) { return Some(PeerIdentityMismatch); }
    var reasons := DenialReasons(peer.identity, observed);
    if reasons != [] { return Some(ProcessIdentityChanged); }
    if !peer.policy(observed) { return Some(CodeIdentityDenied); }
    return None;
  }
}
