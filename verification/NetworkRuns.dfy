/**
 Runs of a network node that show what the theorems leave possible: a relay peer is remembered when it
 disconnects, answers a challenge issued before it disconnected, and one invitation can admit two peers.
 */
module NetworkRuns {
  import opened Wrappers
  import opened Bytes
  import opened Protocol
  import opened Devices
  import opened Bootstrap
  import opened Network
  import opened NetworkNodes
  import opened Joining
  import opened Samples
  import opened LongAncestry
  import Json

  // ------------------------------------------------------------------ a setting

  function SampleCertificate(user: Byte, device: Byte): DeviceCertificate {
    DeviceCertificate(1, SampleKey(user, 0), SampleKey(user, device), 0, Zeros(SIGNATURE_LEN))
  }

  /** Every key is the peer id of its device. */
  function SampleSetting(): Setting {
    Setting(SampleCrypto(), key => Some(key), SampleKey(0, 9), SampleCertificate(0, 9), IdAt(0, 0), {})
  }

  lemma SampleSettingIsFine()
    ensures OwnFault(SampleSetting()).None?
  {
  }

  lemma SamplePeerIsFine(user: Byte, device: Byte)
    requires user < 4
    ensures PeerFault(SampleSetting(), SampleKey(user, device), SampleCertificate(user, device)).None?
    ensures DeviceOf(SampleCrypto(), SampleCertificate(user, device)).user == SampleUser(user)
  {
  }

  /** A grant for the first invitation, which has the founding as its only ancestor. */
  function SampleGrant(): Grant {
    Grant(IdAt(0, 1), Zeros(PUBLIC_KEY_LEN), [Link(0, 0), Link(0, 1)])
  }

  lemma SampleGrantIsValid()
    ensures ValidGrant(SampleSetting(), SampleGrant())
  {
    LinkIsValid(0, 0);
    LinkIsValid(0, 1);
    PairIsValid(SampleSetting(), SampleGrant(), Link(0, 0), Link(0, 1));
  }

  lemma PairIsValid(setting: Setting, grant: Grant, a: SignedEvent, b: SignedEvent)
    requires grant.ancestry == [a, b] && b.id == grant.invitation
    requires ValidEvent(setting.crypto, a) && Belongs(a, setting.community)
    requires ValidEvent(setting.crypto, b) && Belongs(b, setting.community)
    ensures ValidGrant(setting, grant)
  {
    TwoEventsFit(setting.crypto, grant.invitation, a, b);
    assert grant.ancestry[1] in grant.ancestry;
  }

  lemma TwoEventsFit(crypto: Crypto, invitation: Id, a: SignedEvent, b: SignedEvent)
    requires ValidEvent(crypto, a) && ValidEvent(crypto, b)
    ensures DisclosureFits(invitation, [a, b])
  {
    Json.IdJsonBound(invitation);
    Json.ValidEventJsonBound(crypto, a);
    Json.ValidEventJsonBound(crypto, b);
    assert [a, b][1..] == [b];
    assert [b][1..] == [];
    assert Json.EventItemsJson([a, b]) == Json.EventJson(a) + 1 + Json.EventItemsJson([b]);
    assert Json.EventItemsJson([b]) == Json.EventJson(b) + 0 + Json.EventItemsJson([]);
  }

  // ------------------------------------------------------------------ steps of a bootstrap

  /** Someone who holds the invitation: a peer, its certificate, a signature for a nonce, an acceptance. */
  datatype Holder = Holder(
    peer: PeerId, certificate: DeviceCertificate, nonce: Octets, signature: Octets, acceptance: SignedEvent)

  function ProofOf(setting: Setting, grant: Grant, holder: Holder): Proof {
    Proof(grant.invitation, DeviceOf(setting.crypto, holder.certificate))
  }

  /** The challenge the holder is issued. */
  function ChallengeFor(setting: Setting, grant: Grant, holder: Holder): Challenge {
    var device := DeviceOf(setting.crypto, holder.certificate);
    Challenge(grant.invitation, device,
              ProofBytes(setting, grant.invitation, device, holder.peer, setting.self, holder.nonce))
  }

  /** Everything the holder presents is in order. */
  ghost predicate Prepared(setting: Setting, grant: Grant, holder: Holder) {
    && PeerFault(setting, holder.peer, holder.certificate).None?
    && Proves(setting.crypto, grant, ChallengeFor(setting, grant, holder), holder.signature)
    && Accepts(setting, ProofOf(setting, grant, holder), holder.acceptance)
  }

  ghost predicate Grants(state: State, grant: Grant) {
    grant.invitation in state.grants && state.grants[grant.invitation] == grant
  }

  lemma OneGrant(setting: Setting, grant: Grant)
    requires ValidGrant(setting, grant)
    ensures GrantMap([grant]) == map[grant.invitation := grant] && GrantMap([grant]).Keys == {grant.invitation}
    ensures forall g :: g in [grant] ==> ValidGrant(setting, g)
  {
    assert [grant][..0] == [];
    assert GrantMap([grant]) == GrantMap([grant][..0])[grant.invitation := grant];
  }

  /** A node that grants one invitation. */
  method Granting(setting: Setting, grant: Grant) returns (node: NetworkNode)
    requires OwnFault(setting).None? && ValidGrant(setting, grant)
    ensures fresh(node) && node.Valid() && node.setting == setting && Grants(node.state, grant)
    ensures node.state.acceptances == map[] && node.state.relays == {}
    ensures node.trace == [Regranted({grant.invitation})]
  {
    node := new NetworkNode(setting, {});
    OneGrant(setting, grant);
    var granted := node.ReplaceGrants([grant]);
  }

  method ChallengeHolder(node: NetworkNode, grant: Grant, holder: Holder)
    requires node.Valid() && Prepared(node.setting, grant, holder) && Grants(node.state, grant)
    modifies node
    ensures node.Valid()
    ensures node.trace == old(node.trace) + [Challenged(holder.peer, ChallengeFor(node.setting, grant, holder))]
    ensures var challenge := ChallengeFor(node.setting, grant, holder);
            node.state == old(node.state).(challenges := old(node.state).challenges[holder.peer := challenge])
  {
    var challenge := node.BeginBootstrap(holder.peer, holder.certificate, grant.invitation, holder.nonce);
  }

  lemma HolderAnswers(setting: Setting, state: State, grant: Grant, holder: Holder)
    requires Prepared(setting, grant, holder) && Grants(state, grant)
    requires holder.peer in state.challenges && state.challenges[holder.peer] == ChallengeFor(setting, grant, holder)
    ensures Answers(setting, state, holder.peer, grant.invitation, holder.signature)
  {
  }

  method AnswerHolder(node: NetworkNode, grant: Grant, holder: Holder)
    requires node.Valid() && Prepared(node.setting, grant, holder) && Grants(node.state, grant)
    requires holder.peer in node.state.challenges
    requires node.state.challenges[holder.peer] == ChallengeFor(node.setting, grant, holder)
    modifies node
    ensures node.Valid() && node.state == Proven(old(node.state), holder.peer)
    ensures node.trace == old(node.trace)
                          + [Disclosed(holder.peer, ChallengeFor(node.setting, grant, holder), grant, holder.signature)]
  {
    HolderAnswers(node.setting, node.state, grant, holder);
    var answer := node.ProveBootstrap(holder.peer, grant.invitation, holder.signature);
  }

  lemma HolderSpends(setting: Setting, state: State, grant: Grant, holder: Holder)
    requires Prepared(setting, grant, holder) && Grants(state, grant)
    requires holder.peer in state.proved && state.proved[holder.peer] == ProofOf(setting, grant, holder)
    ensures Spends(setting, state, holder.peer, grant.invitation, holder.acceptance)
  {
  }

  method SurfaceHolder(node: NetworkNode, grant: Grant, holder: Holder)
    requires node.Valid() && Prepared(node.setting, grant, holder) && Grants(node.state, grant)
    requires holder.peer in node.state.proved && node.state.proved[holder.peer] == ProofOf(node.setting, grant, holder)
    requires holder.peer !in node.state.acceptances
    modifies node
    ensures node.Valid() && node.state == Waiting(old(node.state), holder.peer)
    ensures node.trace == old(node.trace)
                          + [Surfaced(holder.peer, ProofOf(node.setting, grant, holder), holder.acceptance)]
  {
    HolderSpends(node.setting, node.state, grant, holder);
    var surfaced := node.HandleAcceptance(holder.peer, grant.invitation, holder.acceptance);
  }

  // ------------------------------------------------------------------ relay peers

  /** An authenticated relay peer disconnects and is still authenticated. */
  method RememberRelay(setting: Setting, allowed: set<Id>, peer: PeerId, certificate: DeviceCertificate)
    returns (node: NetworkNode)
    requires OwnFault(setting).None? && PeerFault(setting, peer, certificate).None?
    requires DeviceOf(setting.crypto, certificate).user in allowed
    ensures fresh(node) && node.Valid() && node.trace == [Relayed(peer), Closed(peer, true)]
    ensures peer in node.state.authenticated && !Stranger(node.state, peer)
  {
    node := AdmitOne(setting, allowed, peer, certificate);
    node.UseRelay(peer);
    node.ConnectionClosed(peer, 0);
  }

  method AdmitOne(setting: Setting, allowed: set<Id>, peer: PeerId, certificate: DeviceCertificate)
    returns (node: NetworkNode)
    requires OwnFault(setting).None? && PeerFault(setting, peer, certificate).None?
    requires DeviceOf(setting.crypto, certificate).user in allowed
    ensures fresh(node) && node.Valid() && node.trace == [] && peer in node.state.authenticated
  {
    node := new NetworkNode(setting, allowed);
    var r := node.Authenticate(peer, certificate);
  }

  method SomeRelayPeerIsRemembered() returns (node: NetworkNode, peer: PeerId)
    ensures fresh(node) && node.Valid() && node.trace == [Relayed(peer), Closed(peer, true)]
    ensures peer in node.state.authenticated && !Stranger(node.state, peer)
  {
    SampleSettingIsFine();
    SamplePeerIsFine(0, 1);
    peer := SampleKey(0, 1);
    node := RememberRelay(SampleSetting(), {SampleUser(0)}, peer, SampleCertificate(0, 1));
  }

  /** The relay peer disconnects; its challenge stands. */
  method DisconnectRelay(node: NetworkNode, peer: PeerId)
    requires node.Valid() && peer in node.state.relays
    modifies node
    ensures node.Valid() && node.state == old(node.state) && node.trace == old(node.trace) + [Closed(peer, true)]
  {
    node.ConnectionClosed(peer, 0);
  }

  /** A relay peer is challenged, disconnects, and has the invitation's ancestry disclosed to it. */
  method AnswerLater(setting: Setting, grant: Grant, holder: Holder) returns (node: NetworkNode)
    requires OwnFault(setting).None? && ValidGrant(setting, grant) && Prepared(setting, grant, holder)
    ensures fresh(node) && node.Valid()
    ensures var challenge := ChallengeFor(setting, grant, holder);
            node.trace == [Regranted({grant.invitation})] + [Relayed(holder.peer)]
                          + [Challenged(holder.peer, challenge)]
                          + [Closed(holder.peer, true)] + [Disclosed(holder.peer, challenge, grant, holder.signature)]
  {
    node := Granting(setting, grant);
    node.UseRelay(holder.peer);
    ChallengeHolder(node, grant, holder);
    DisconnectRelay(node, holder.peer);
    AnswerHolder(node, grant, holder);
  }

  // ------------------------------------------------------------------ one invitation, two peers

  /** The history with the holder's challenge, disclosure and surfaced acceptance. */
  function BroughtForward(trace: Trace, setting: Setting, grant: Grant, holder: Holder): Trace {
    var challenge := ChallengeFor(setting, grant, holder);
    trace + [Challenged(holder.peer, challenge)] + [Disclosed(holder.peer, challenge, grant, holder.signature)]
    + [Surfaced(holder.peer, ProofOf(setting, grant, holder), holder.acceptance)]
  }

  /** A holder is challenged, answers, and has its acceptance surfaced. */
  method BringForward(node: NetworkNode, grant: Grant, holder: Holder)
    requires node.Valid() && Prepared(node.setting, grant, holder) && Grants(node.state, grant)
    requires holder.peer !in node.state.acceptances
    modifies node
    ensures node.Valid() && node.trace == BroughtForward(old(node.trace), node.setting, grant, holder)
    ensures node.state.grants == old(node.state).grants
    ensures node.state.acceptances == old(node.state).acceptances[holder.peer := ProofOf(node.setting, grant, holder)]
  {
    Demonstrate(node, grant, holder);
    SurfaceHolder(node, grant, holder);
  }

  /** A holder is challenged and answers. */
  method Demonstrate(node: NetworkNode, grant: Grant, holder: Holder)
    requires node.Valid() && Prepared(node.setting, grant, holder) && Grants(node.state, grant)
    modifies node
    ensures node.Valid()
    ensures node.trace == old(node.trace) + [Challenged(holder.peer, ChallengeFor(node.setting, grant, holder))]
                          + [Disclosed(holder.peer, ChallengeFor(node.setting, grant, holder), grant, holder.signature)]
    ensures node.state.grants == old(node.state).grants && node.state.acceptances == old(node.state).acceptances
    ensures holder.peer in node.state.proved && node.state.proved[holder.peer] == ProofOf(node.setting, grant, holder)
  {
    ChallengeHolder(node, grant, holder);
    AnswerHolder(node, grant, holder);
  }

  method Approve(node: NetworkNode, peer: PeerId)
    requires node.Valid() && peer in node.state.acceptances
    modifies node
    ensures node.Valid() && node.trace == old(node.trace) + [Settled(peer, old(node.state).acceptances[peer], true)]
    ensures node.state.authenticated == old(node.state).authenticated + {peer}
    ensures node.state.acceptances == old(node.state).acceptances - {peer}
  {
    var decided := node.ResolveAcceptance(peer, true, true);
  }

  /** Two holders of one invitation are brought forward before either is decided: both can be approved. */
  method ApproveBoth(setting: Setting, grant: Grant, one: Holder, other: Holder) returns (node: NetworkNode)
    requires OwnFault(setting).None? && ValidGrant(setting, grant)
    requires Prepared(setting, grant, one) && Prepared(setting, grant, other) && one.peer != other.peer
    ensures fresh(node) && node.Valid()
    ensures one.peer in node.state.authenticated && other.peer in node.state.authenticated
    ensures var waiting :=
              BroughtForward(
                BroughtForward([Regranted({grant.invitation})], setting, grant, one), setting, grant, other);
            node.trace == waiting + [Settled(one.peer, ProofOf(setting, grant, one), true)]
                          + [Settled(other.peer, ProofOf(setting, grant, other), true)]
  {
    node := BothWaiting(setting, grant, one, other);
    ApproveTwo(node, one.peer, other.peer);
  }

  method ApproveTwo(node: NetworkNode, one: PeerId, other: PeerId)
    requires node.Valid() && one != other && one in node.state.acceptances && other in node.state.acceptances
    modifies node
    ensures node.Valid() && one in node.state.authenticated && other in node.state.authenticated
    ensures node.trace == old(node.trace) + [Settled(one, old(node.state).acceptances[one], true)]
                          + [Settled(other, old(node.state).acceptances[other], true)]
  {
    Approve(node, one);
    Approve(node, other);
  }

  /** Both acceptances wait for a decision. */
  method BothWaiting(setting: Setting, grant: Grant, one: Holder, other: Holder) returns (node: NetworkNode)
    requires OwnFault(setting).None? && ValidGrant(setting, grant)
    requires Prepared(setting, grant, one) && Prepared(setting, grant, other) && one.peer != other.peer
    ensures fresh(node) && node.Valid()
    ensures node.state.acceptances
            == map[one.peer := ProofOf(setting, grant, one), other.peer := ProofOf(setting, grant, other)]
    ensures node.trace
            == BroughtForward(
                 BroughtForward([Regranted({grant.invitation})], setting, grant, one), setting, grant, other)
  {
    node := Granting(setting, grant);
    BringForward(node, grant, one);
    BringForward(node, grant, other);
  }

  function SampleHolder(user: Byte, size: nat): Holder {
    Holder(SampleKey(user, 1), SampleCertificate(user, 1), Zeros(32), Zeros(SIGNATURE_LEN),
           SampleEvent(user, Some(IdAt(0, 0)), [IdAt(0, 1)], [1], size))
  }

  lemma SampleHolderIsPrepared(user: Byte, size: nat)
    requires user < 4 && size <= MAX_PAYLOAD_BYTES
    ensures Prepared(SampleSetting(), SampleGrant(), SampleHolder(user, size))
  {
    SamplePeerIsFine(user, 1);
    SampleIsValid(user, Some(IdAt(0, 0)), [IdAt(0, 1)], [1], size);
    HolderIsPrepared(SampleSetting(), SampleGrant(), SampleHolder(user, size));
  }

  lemma HolderIsPrepared(setting: Setting, grant: Grant, holder: Holder)
    requires PeerFault(setting, holder.peer, holder.certificate).None?
    requires forall key, bytes, signature :: setting.crypto.verify(key, bytes, signature)
    requires |holder.signature| == SIGNATURE_LEN
    requires holder.acceptance.content.community == Some(setting.community)
    requires grant.invitation in holder.acceptance.content.parents && ValidEvent(setting.crypto, holder.acceptance)
    requires AuthorId(setting.crypto, holder.acceptance) == DeviceOf(setting.crypto, holder.certificate).user
    ensures Prepared(setting, grant, holder)
  {
  }

  /** There are such holders: two users, each with a certificate, a proof and an acceptance in order. */
  lemma SomeHoldersArePrepared() returns (setting: Setting, grant: Grant, one: Holder, other: Holder)
    ensures OwnFault(setting).None? && ValidGrant(setting, grant) && one.peer != other.peer
    ensures Prepared(setting, grant, one) && Prepared(setting, grant, other)
    ensures ProofOf(setting, grant, one).device.user != ProofOf(setting, grant, other).device.user
  {
    SampleSettingIsFine();
    SampleGrantIsValid();
    SampleHolderIsPrepared(1, 1);
    SampleHolderIsPrepared(2, 2);
    SamplePeerIsFine(1, 1);
    SamplePeerIsFine(2, 1);
    setting, grant, one, other := SampleSetting(), SampleGrant(), SampleHolder(1, 1), SampleHolder(2, 2);
    assert one.peer[0] != other.peer[0];
  }

  // ------------------------------------------------------------------ a join

  lemma SampleAcceptance()
    ensures AcceptanceOf(JoinerSetting(), SampleGrant().invitation, SampleHolder(1, 1).acceptance)
  {
    SampleIsValid(1, Some(IdAt(0, 0)), [IdAt(0, 1)], [1], 1);
  }

  function JoinerSetting(): Setting {
    SampleSetting().(self := SampleKey(1, 1), own := SampleCertificate(1, 1))
  }

  lemma SampleWorld()
    ensures SameWorld(SampleSetting(), JoinerSetting()) && OwnFault(JoinerSetting()).None?
    ensures HoldsKey(SampleCrypto(), SampleGrant().key, bytes => Zeros(SIGNATURE_LEN))
  {
    assert SampleSetting().self[0] != JoinerSetting().self[0];
  }

  /** A node that knows nobody and wants to join. */
  method Aspiring(setting: Setting, inviter: PeerId, invitation: Id) returns (joiner: NetworkNode)
    requires OwnFault(setting).None?
    ensures fresh(joiner) && joiner.Valid() && joiner.setting == setting
    ensures joiner.state.allowed == {} && joiner.state.trusted == {}
    ensures joiner.state.target == Some(Target(inviter, invitation, false))
  {
    joiner := new NetworkNode(setting, {});
    var configured := joiner.ConfigureTarget(inviter, invitation);
  }

  /** Over any two settings of one community, a node that grants and one that wants to join. */
  method JoinGranting(
    here: Setting, there: Setting, grant: Grant, nonce: Octets, sign: Octets -> Octets, acceptance: SignedEvent)
    returns (inviter: NetworkNode, joiner: NetworkNode)
    requires OwnFault(here).None? && OwnFault(there).None? && SameWorld(here, there) && ValidGrant(here, grant)
    requires DeviceOf(there.crypto, there.own) !in here.revoked && DeviceOf(here.crypto, here.own) !in there.revoked
    requires HoldsKey(here.crypto, grant.key, sign) && AcceptanceOf(there, grant.invitation, acceptance)
    ensures inviter.Valid() && joiner.Valid() && inviter.setting == here && joiner.setting == there
    ensures there.self in inviter.state.authenticated && here.self in joiner.state.authenticated
  {
    inviter := Granting(here, grant);
    joiner := Aspiring(there, here.self, grant.invitation);
    var toSign := Join(inviter, joiner, grant.invitation, nonce, sign, acceptance);
  }

  /** Two nodes that come to admit each other. */
  method SomeoneJoins() returns (inviter: NetworkNode, joiner: NetworkNode)
    ensures inviter.Valid() && joiner.Valid()
    ensures joiner.setting.self in inviter.state.authenticated && inviter.setting.self in joiner.state.authenticated
  {
    SampleSettingIsFine();
    SampleGrantIsValid();
    SampleWorld();
    SampleAcceptance();
    inviter, joiner := JoinGranting(SampleSetting(), JoinerSetting(), SampleGrant(), Zeros(32),
                                    bytes => Zeros(SIGNATURE_LEN), SampleHolder(1, 1).acceptance);
  }
}
