/**
 The byte strings that identities sign besides event content: invitation acceptances
 (crates/profile-chat), device certificates and revocations (crates/sync/src/auth.rs) and bootstrap
 possession proofs (crates/sync/src/bootstrap.rs). Each layout is injective on the field lengths its
 verifier insists on, and no byte string is a message of two kinds.
 */
module SignedBytes {
  import opened Bytes
  import opened Protocol

  const DEVICE_AUTH_VERSION: U16 := 1
  const BOOTSTRAP_NONCE_BYTES := 32

  function AcceptanceDomain(): Octets {
    Ascii("chatcommons:invite-acceptance:v1\0")
  }

  function CertificateDomain(): Octets {
    Ascii("chatcommons:device-certificate:v1\0")
  }

  function RevocationDomain(): Octets {
    Ascii("chatcommons:device-revocation:v1\0")
  }

  function PossessionDomain(): Octets {
    Ascii("chatcommons:bootstrap-possession:v1\0")
  }


  /** Everything the system signs or verifies, before it is laid out as bytes. */
  datatype Statement =
    | EventContent(content: Content)
    | Acceptance(community: Id, invitation: Id, invitee: Id)
    | Certificate(version: U16, userKey: Octets, deviceKey: Octets, issuedAt: I64)
    | Revocation(version: U16, userKey: Octets, deviceId: Id, issuedAt: I64)
    | Possession(community: Id, invitation: Id, invitee: Id, deviceId: Id,
                 clientPeerHash: Id, serverPeerHash: Id, nonce: Octets)

  /** The lengths checked before any signature over the statement is verified. */
  predicate WellSized(statement: Statement) {
    match statement
    case EventContent(content) => Encodable(content)
    case Acceptance(_, _, _) => true
    case Certificate(_, userKey, deviceKey, _) => |userKey| == PUBLIC_KEY_LEN && |deviceKey| == PUBLIC_KEY_LEN
    case Revocation(_, userKey, _, _) => |userKey| == PUBLIC_KEY_LEN
    case Possession(_, _, _, _, _, _, nonce) => |nonce| == BOOTSTRAP_NONCE_BYTES
  }

  function AcceptanceBytes(community: Id, invitation: Id, invitee: Id): Octets {
    AcceptanceDomain() + (IdBytes(community) + (IdBytes(invitation) + IdBytes(invitee)))
  }

  function CertificateBytes(version: U16, userKey: Octets, deviceKey: Octets, issuedAt: I64): Octets {
    CertificateDomain() + (BigEndian(2, version) + (userKey + (deviceKey + TimestampBytes(issuedAt))))
  }

  function RevocationBytes(version: U16, userKey: Octets, deviceId: Id, issuedAt: I64): Octets {
    RevocationDomain() + (BigEndian(2, version) + (userKey + (IdBytes(deviceId) + TimestampBytes(issuedAt))))
  }

  function PossessionBytes(
    community: Id, invitation: Id, invitee: Id, deviceId: Id,
    clientPeerHash: Id, serverPeerHash: Id, nonce: Octets): Octets
  {
    PossessionDomain()
    + (IdBytes(community)
       + (IdBytes(invitation)
          + (IdBytes(invitee)
             + (IdBytes(deviceId)
                + (IdBytes(clientPeerHash)
                   + (IdBytes(serverPeerHash)
                      + nonce))))))
  }

  function MessageBytes(statement: Statement): Octets {
    match statement
    case EventContent(content) => CanonicalContent(content)
    case Acceptance(community, invitation, invitee) => AcceptanceBytes(community, invitation, invitee)
    case Certificate(version, userKey, deviceKey, issuedAt) =>
      CertificateBytes(version, userKey, deviceKey, issuedAt)
    case Revocation(version, userKey, deviceId, issuedAt) =>
      RevocationBytes(version, userKey, deviceId, issuedAt)
    case Possession(community, invitation, invitee, deviceId, clientHash, serverHash, nonce) =>
      PossessionBytes(community, invitation, invitee, deviceId, clientHash, serverHash, nonce)
  }

  // ------------------------------------------------------------------ kinds are disjoint

  /** The domain separators share the prefix "chatcommons:" and part company at bytes 12 and 19. */
  function KindMark(statement: Statement): (Byte, Byte) {
    match statement
    case EventContent(_) => (99, 58)
    case Acceptance(_, _, _) => (105, 97)
    case Certificate(_, _, _, _) => (100, 99)
    case Revocation(_, _, _, _) => (100, 114)
    case Possession(_, _, _, _, _, _, _) => (98, 97)
  }

  lemma KindIsReadable(statement: Statement)
    ensures |MessageBytes(statement)| > 19
    ensures (MessageBytes(statement)[12], MessageBytes(statement)[19]) == KindMark(statement)
  {
    match statement
    case EventContent(_) =>
      assert ContentDomain()[12] == 99 && ContentDomain()[19] == 58;
    case Acceptance(_, _, _) =>
      assert AcceptanceDomain()[12] == 105 && AcceptanceDomain()[19] == 97;
    case Certificate(_, _, _, _) =>
      assert CertificateDomain()[12] == 100 && CertificateDomain()[19] == 99;
    case Revocation(_, _, _, _) =>
      assert RevocationDomain()[12] == 100 && RevocationDomain()[19] == 114;
    case Possession(_, _, _, _, _, _, _) =>
      assert PossessionDomain()[12] == 98 && PossessionDomain()[19] == 97;
  }

  // ------------------------------------------------------------------ each kind is injective

  lemma HeadsAndTailsAgree(a: Octets, x: Octets, b: Octets, y: Octets)
    requires |a| == |b|
    requires a + x == b + y
    ensures a == b && x == y
  {
    assert a == (a + x)[..|a|] && b == (b + y)[..|b|];
    assert x == (a + x)[|a|..] && y == (b + y)[|b|..];
  }

  lemma IdsAgree(a: Id, x: Octets, b: Id, y: Octets)
    requires IdBytes(a) + x == IdBytes(b) + y
    ensures a == b && x == y
  {
    TakeIdInverts(a, x);
    TakeIdInverts(b, y);
  }

  lemma VersionsAgree(a: U16, x: Octets, b: U16, y: Octets)
    requires BigEndian(2, a) + x == BigEndian(2, b) + y
    ensures a == b && x == y
  {
    PowersOf256();
    TakeIntInverts(2, a, x);
    TakeIntInverts(2, b, y);
  }

  lemma TimestampsAgree(a: I64, b: I64)
    requires TimestampBytes(a) == TimestampBytes(b)
    ensures a == b
  {
    TakeTimestampInverts(a, []);
    TakeTimestampInverts(b, []);
  }

  lemma AcceptanceIsInjective(s: Statement, t: Statement)
    requires s.Acceptance? && t.Acceptance?
    requires MessageBytes(s) == MessageBytes(t)
    ensures s == t
  {
    var s1, t1 := IdBytes(s.invitation) + IdBytes(s.invitee), IdBytes(t.invitation) + IdBytes(t.invitee);
    SuffixesAgree(AcceptanceDomain(), IdBytes(s.community) + s1, IdBytes(t.community) + t1);
    IdsAgree(s.community, s1, t.community, t1);
    IdsAgree(s.invitation, IdBytes(s.invitee), t.invitation, IdBytes(t.invitee));
    assert IdBytes(s.invitee) + [] == IdBytes(t.invitee) + [];
    IdsAgree(s.invitee, [], t.invitee, []);
  }

  lemma CertificateIsInjective(s: Statement, t: Statement)
    requires s.Certificate? && t.Certificate? && WellSized(s) && WellSized(t)
    requires MessageBytes(s) == MessageBytes(t)
    ensures s == t
  {
    var s2, t2 := s.deviceKey + TimestampBytes(s.issuedAt), t.deviceKey + TimestampBytes(t.issuedAt);
    var s1, t1 := s.userKey + s2, t.userKey + t2;
    SuffixesAgree(CertificateDomain(), BigEndian(2, s.version) + s1, BigEndian(2, t.version) + t1);
    VersionsAgree(s.version, s1, t.version, t1);
    HeadsAndTailsAgree(s.userKey, s2, t.userKey, t2);
    HeadsAndTailsAgree(s.deviceKey, TimestampBytes(s.issuedAt), t.deviceKey, TimestampBytes(t.issuedAt));
    TimestampsAgree(s.issuedAt, t.issuedAt);
  }

  lemma RevocationIsInjective(s: Statement, t: Statement)
    requires s.Revocation? && t.Revocation? && WellSized(s) && WellSized(t)
    requires MessageBytes(s) == MessageBytes(t)
    ensures s == t
  {
    var s2, t2 := IdBytes(s.deviceId) + TimestampBytes(s.issuedAt), IdBytes(t.deviceId) + TimestampBytes(t.issuedAt);
    var s1, t1 := s.userKey + s2, t.userKey + t2;
    SuffixesAgree(RevocationDomain(), BigEndian(2, s.version) + s1, BigEndian(2, t.version) + t1);
    VersionsAgree(s.version, s1, t.version, t1);
    HeadsAndTailsAgree(s.userKey, s2, t.userKey, t2);
    IdsAgree(s.deviceId, TimestampBytes(s.issuedAt), t.deviceId, TimestampBytes(t.issuedAt));
    TimestampsAgree(s.issuedAt, t.issuedAt);
  }

  lemma PossessionIsInjective(s: Statement, t: Statement)
    requires s.Possession? && t.Possession?
    requires MessageBytes(s) == MessageBytes(t)
    ensures s == t
  {
    var s5, t5 := IdBytes(s.serverPeerHash) + s.nonce, IdBytes(t.serverPeerHash) + t.nonce;
    var s4, t4 := IdBytes(s.clientPeerHash) + s5, IdBytes(t.clientPeerHash) + t5;
    var s3, t3 := IdBytes(s.deviceId) + s4, IdBytes(t.deviceId) + t4;
    var s2, t2 := IdBytes(s.invitee) + s3, IdBytes(t.invitee) + t3;
    var s1, t1 := IdBytes(s.invitation) + s2, IdBytes(t.invitation) + t2;
    SuffixesAgree(PossessionDomain(), IdBytes(s.community) + s1, IdBytes(t.community) + t1);
    IdsAgree(s.community, s1, t.community, t1);
    IdsAgree(s.invitation, s2, t.invitation, t2);
    IdsAgree(s.invitee, s3, t.invitee, t3);
    IdsAgree(s.deviceId, s4, t.deviceId, t4);
    IdsAgree(s.clientPeerHash, s5, t.clientPeerHash, t5);
    IdsAgree(s.serverPeerHash, s.nonce, t.serverPeerHash, t.nonce);
  }

  /**
   A signed byte string means one thing: equal bytes come from the same kind of statement with the
   same fields, so no signature made for one purpose verifies for another.
   */
  lemma SignedBytesMeanOneThing(s: Statement, t: Statement)
    requires WellSized(s) && WellSized(t)
    requires MessageBytes(s) == MessageBytes(t)
    ensures s == t
  {
    KindIsReadable(s);
    KindIsReadable(t);
    match s
    case EventContent(content) =>
      SuffixesAgree(ContentDomain(), CanonicalBody(content), CanonicalBody(t.content));
      assert CanonicalBody(content) + [] == CanonicalBody(content);
      assert CanonicalBody(t.content) + [] == CanonicalBody(t.content);
      CanonicalContentIsRecoverable(content, []);
      CanonicalContentIsRecoverable(t.content, []);
    case Acceptance(_, _, _) => AcceptanceIsInjective(s, t);
    case Certificate(_, _, _, _) => CertificateIsInjective(s, t);
    case Revocation(_, _, _, _) => RevocationIsInjective(s, t);
    case Possession(_, _, _, _, _, _, _) => PossessionIsInjective(s, t);
  }
}
