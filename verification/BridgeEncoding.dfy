/** The bytes over which a bridge request is authenticated. */
module BridgeEncoding {
  import opened Common

  const TWO32: nat := 0x1_0000_0000

  /** The text "AgentPass-Authenticated-Git-Bridge-v1" and a zero byte. */
  const DOMAIN: Bytes := [
    65, 103, 101, 110, 116, 80, 97, 115, 115, 45, 65, 117, 116, 104, 101, 110, 116, 105, 99, 97, 116, 101, 100, 45,
    71, 105, 116, 45, 66, 114, 105, 100, 103, 101, 45, 118, 49, 0]

  datatype AuthFields = AuthFields(
    sessionID: Bytes, sequence: nat, payloadDigest: Bytes,
    auditIdentity: Bytes, processHash: Bytes, ancestryHash: Bytes)

  /** Every length and the sequence number fit 32 bits; outside this range the source traps. */
  predicate Encodable(f: AuthFields) {
    && |f.sessionID| < TWO32 && f.sequence < TWO32 && |f.payloadDigest| < TWO32
    && |f.auditIdentity| < TWO32 && |f.processHash| < TWO32 && |f.ancestryHash| < TWO32
  }

  function BigEndian32(n: nat): (b: Bytes)
    requires n < TWO32
    ensures |b| == 4
  {
    [n / 256 / 256 / 256, n / 256 / 256 % 256, n / 256 % 256, n % 256]
  }

  function Prefixed(value: Bytes): Bytes
    requires |value| < TWO32
  {
    BigEndian32(|value|) + value
  }

  function AuthenticationData(f: AuthFields): Bytes
    requires Encodable(f)
  {
    DOMAIN + (Prefixed(f.sessionID) + (BigEndian32(f.sequence) + (Prefixed(f.payloadDigest)
    + (Prefixed(f.auditIdentity) + (Prefixed(f.processHash) + Prefixed(f.ancestryHash))))))
  }

  method AppendLengthPrefixed(value: Bytes, data: Bytes) returns (extended: Bytes)
    requires |value| < TWO32
    ensures extended == data + Prefixed(value)
  {
    extended := data + BigEndian32(|value|);
    extended := extended + value;
    assert data + BigEndian32(|value|) + value == data + (BigEndian32(|value|) + value);
  }

  /** The buffer the source fills field by field holds exactly the nested encoding. */
  method BuildAuthenticationData(f: AuthFields) returns (data: Bytes)
    requires Encodable(f)
    ensures data == AuthenticationData(f)
  {
    hide Prefixed, BigEndian32, DOMAIN;
    data := DOMAIN;
    data := AppendLengthPrefixed(f.sessionID, data);
    data := data + BigEndian32(f.sequence);
    data := AppendLengthPrefixed(f.payloadDigest, data);
    data := AppendLengthPrefixed(f.auditIdentity, data);
    data := AppendLengthPrefixed(f.processHash, data);
    data := AppendLengthPrefixed(f.ancestryHash, data);
  }

  lemma BigEndian32Injective(a: nat, b: nat)
    requires a < TWO32 && b < TWO32 && BigEndian32(a) == BigEndian32(b)
    ensures a == b
  {
    FromBytes(a);
    FromBytes(b);
    assert BigEndian32(a)[0] == BigEndian32(b)[0] && BigEndian32(a)[1] == BigEndian32(b)[1];
    assert BigEndian32(a)[2] == BigEndian32(b)[2] && BigEndian32(a)[3] == BigEndian32(b)[3];
  }

  lemma FromBytes(n: nat)
    requires n < TWO32
    ensures var b := BigEndian32(n); n == (b[0] as int) * 0x1_00_0000 + (b[1] as int) * 0x1_0000 + (b[2] as int) * 256 + b[3] as int
  {}

  lemma SplitConcat(a: Bytes, x: Bytes, b: Bytes, y: Bytes)
    requires |a| == |b| && a + x == b + y
    ensures a == b && x == y
  {
    assert (a + x)[..|a|] == a && (b + y)[..|b|] == b;
    assert (a + x)[|a|..] == x && (b + y)[|b|..] == y;
  }

  /** A length prefix makes the boundary between a field and what follows it unambiguous. */
  lemma PrefixedInjective(a: Bytes, x: Bytes, b: Bytes, y: Bytes)
    requires |a| < TWO32 && |b| < TWO32 && Prefixed(a) + x == Prefixed(b) + y
    ensures a == b && x == y
  {
    assert Prefixed(a) + x == BigEndian32(|a|) + (a + x);
    assert Prefixed(b) + y == BigEndian32(|b|) + (b + y);
    SplitConcat(BigEndian32(|a|), a + x, BigEndian32(|b|), b + y);
    BigEndian32Injective(|a|, |b|);
    SplitConcat(a, x, b, y);
  }

  /** Two requests have the same authentication bytes only if all six fields agree. */
  lemma AuthenticationDataInjective(f: AuthFields, g: AuthFields)
    requires Encodable(f) && Encodable(g)
    ensures AuthenticationData(f) == AuthenticationData(g) <==> f == g
  {
    if AuthenticationData(f) == AuthenticationData(g) {
      hide BigEndian32, Prefixed, DOMAIN;
      var f4, g4 := Prefixed(f.processHash) + Prefixed(f.ancestryHash), Prefixed(g.processHash) + Prefixed(g.ancestryHash);
      var f3, g3 := Prefixed(f.auditIdentity) + f4, Prefixed(g.auditIdentity) + g4;
      var f2, g2 := Prefixed(f.payloadDigest) + f3, Prefixed(g.payloadDigest) + g3;
      var f1, g1 := BigEndian32(f.sequence) + f2, BigEndian32(g.sequence) + g2;
      SplitConcat(DOMAIN, Prefixed(f.sessionID) + f1, DOMAIN, Prefixed(g.sessionID) + g1);
      PrefixedInjective(f.sessionID, f1, g.sessionID, g1);
      SplitConcat(BigEndian32(f.sequence), f2, BigEndian32(g.sequence), g2);
      BigEndian32Injective(f.sequence, g.sequence);
      PrefixedInjective(f.payloadDigest, f3, g.payloadDigest, g3);
      PrefixedInjective(f.auditIdentity, f4, g.auditIdentity, g4);
      PrefixedInjective(f.processHash, Prefixed(f.ancestryHash), g.processHash, Prefixed(g.ancestryHash));
      assert Prefixed(f.ancestryHash) + [] == Prefixed(g.ancestryHash) + [];
      PrefixedInjective(f.ancestryHash, [], g.ancestryHash, []);
    }
  }
}
