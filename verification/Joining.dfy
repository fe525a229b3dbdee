/**
 Both ends of an invitation: what the joining node signs is what the inviting node verifies, and carried
 through to approval each node admits the other (crates/sync/src/network.rs:845-1071).
 */
module Joining {
  import opened Wrappers
  import opened Bytes
  import opened Protocol
  import opened Devices
  import opened Bootstrap
  import opened Network
  import opened NetworkNodes
  import SignedBytes

  // ------------------------------------------------------------------ which challenge an answer fits

  /**
   What a node hands out to be signed in answer to a challenge is what another node stored for the peer it
   challenged exactly when nothing was mixed up: the same community, invitation and nonce, this node's own
   device and peer id on one side, and the challenger's peer id on the other.
   */
  lemma AnswerFitsOneChallenge(
    joiner: Setting, from: PeerId, invitation: Id, nonce: Octets,
    inviter: Setting, asked: Id, device: Device, peer: PeerId, issued: Octets)
    requires |nonce| == 32 && |issued| == 32
    ensures ToSign(joiner, from, BootstrapChallenge(invitation, nonce))
            == Some(ProofBytes(inviter, asked, device, peer, inviter.self, issued))
            <==>
            && joiner.community == inviter.community && invitation == asked && nonce == issued
            && device == DeviceOf(joiner.crypto, joiner.own)
            && joiner.crypto.hash(joiner.self) == inviter.crypto.hash(peer)
            && joiner.crypto.hash(from) == inviter.crypto.hash(inviter.self)
  {
    var mine := DeviceOf(joiner.crypto, joiner.own);
    if ProofBytes(joiner, invitation, mine, joiner.self, from, nonce)
       == ProofBytes(inviter, asked, device, peer, inviter.self, issued) {
      ProofIsBound(joiner, invitation, mine, joiner.self, from, nonce,
                   inviter, asked, device, peer, inviter.self, issued);
    }
  }

  // ------------------------------------------------------------------ two nodes

  /** The two nodes are of one community and see the same cryptography and transport. */
  ghost predicate SameWorld(a: Setting, b: Setting) {
    a.crypto == b.crypto && a.peerOf == b.peerOf && a.community == b.community && a.self != b.self
  }

  /** A node presents its own certificate: it is taken by whoever has not revoked the device. */
  lemma OwnCertificateServes(presenter: Setting, verifier: Setting)
    requires SameWorld(presenter, verifier) && OwnFault(presenter).None?
    ensures PeerFault(verifier, presenter.self, presenter.own)
            == if DeviceOf(verifier.crypto, presenter.own) in verifier.revoked then Some(DeviceRevoked) else None
  {
  }

  /** The inviter challenges the joiner, and the joiner hands out exactly the bytes the inviter stored. */
  method ChallengeJoiner(inviter: NetworkNode, joiner: NetworkNode, invitation: Id, nonce: Octets)
    returns (toSign: Octets)
    requires inviter != joiner && inviter.Valid() && joiner.Valid() && SameWorld(inviter.setting, joiner.setting)
    requires DeviceOf(joiner.setting.crypto, joiner.setting.own) !in inviter.setting.revoked
    requires invitation in inviter.state.grants
    requires Targets(joiner.state, inviter.setting.self) && joiner.state.target.value.invitation == invitation
    modifies inviter, joiner
    ensures inviter.Valid() && joiner.Valid() && joiner.state == old(joiner.state) && joiner.trace == old(joiner.trace)
    ensures joiner.setting.self in inviter.state.challenges
    ensures var challenge := inviter.state.challenges[joiner.setting.self];
            && challenge.invitation == invitation
            && challenge.device == DeviceOf(joiner.setting.crypto, joiner.setting.own)
            && challenge.proofBytes == toSign
            && inviter.state
               == old(inviter.state).(challenges := old(inviter.state).challenges[joiner.setting.self := challenge])
            && inviter.trace == old(inviter.trace) + [Challenged(joiner.setting.self, challenge)]
  {
    OwnCertificateServes(joiner.setting, inviter.setting);
    var challenge := inviter.BeginBootstrap(joiner.setting.self, joiner.setting.own, invitation, nonce);
    var outcome := joiner.HandleResponse(inviter.setting.self, challenge);
    toSign := outcome.value.toSign.value;
  }

  /** A signature of those bytes under the grant's key makes the inviter disclose, and the joiner take it. */
  method ProvePossession(
    inviter: NetworkNode, joiner: NetworkNode, invitation: Id, toSign: Octets, signature: Octets)
    requires inviter != joiner && inviter.Valid() && joiner.Valid() && SameWorld(inviter.setting, joiner.setting)
    requires invitation in inviter.state.grants && |signature| == 64
    requires inviter.setting.crypto.verify(inviter.state.grants[invitation].key, toSign, signature)
    requires Targets(joiner.state, inviter.setting.self) && joiner.state.target.value.invitation == invitation
    requires joiner.setting.self in inviter.state.challenges
    requires inviter.state.challenges[joiner.setting.self].invitation == invitation
    requires inviter.state.challenges[joiner.setting.self].proofBytes == toSign
    modifies inviter, joiner
    ensures inviter.Valid() && joiner.Valid() && joiner.state == old(joiner.state) && joiner.trace == old(joiner.trace)
    ensures inviter.state == Proven(old(inviter.state), joiner.setting.self)
    ensures inviter.trace
            == old(inviter.trace) + [
                 Disclosed(joiner.setting.self, old(inviter.state).challenges[joiner.setting.self],
                           old(inviter.state).grants[invitation], signature)]
  {
    DisclosureIsTaken(inviter.setting, inviter.state, joiner.setting, joiner.state, invitation);
    var answer := inviter.ProveBootstrap(joiner.setting.self, invitation, signature);
    var outcome := joiner.HandleResponse(inviter.setting.self, answer);
    assert outcome.Ok?;
  }

  /** Every ancestry an inviter discloses passes the joiner's checks. */
  lemma DisclosureIsTaken(inviter: Setting, granting: State, joiner: Setting, joining: State, invitation: Id)
    requires SameWorld(inviter, joiner) && SoundGrants(inviter, granting.grants) && invitation in granting.grants
    requires Targets(joining, inviter.self) && joining.target.value.invitation == invitation
    ensures ResponseFault(joiner, joining, inviter.self,
                          BootstrapAncestry(invitation, granting.grants[invitation].ancestry)).None?
  {
    var grant := granting.grants[invitation];
    ValidGrantIs(inviter, grant);
    ResponseIsTaken(joiner, joining, inviter.self, BootstrapAncestry(invitation, grant.ancestry));
  }

  // ------------------------------------------------------------------ admission on both sides

  /** The joiner meets its target: it learns the inviter's device and may then approve the endpoint. */
  method MeetInviter(inviter: NetworkNode, joiner: NetworkNode)
    requires inviter != joiner && inviter.Valid() && joiner.Valid() && SameWorld(inviter.setting, joiner.setting)
    requires DeviceOf(inviter.setting.crypto, inviter.setting.own) !in joiner.setting.revoked
    requires !MayAct(joiner.state.allowed, joiner.state.trusted,
                     DeviceOf(inviter.setting.crypto, inviter.setting.own))
    requires Targets(joiner.state, inviter.setting.self)
    modifies joiner
    ensures joiner.Valid() && joiner.trace == old(joiner.trace)
    ensures var device := DeviceOf(inviter.setting.crypto, inviter.setting.own);
            joiner.state
            == old(joiner.state).(provisional := old(joiner.state).provisional[inviter.setting.self := device],
                                  target := Some(old(joiner.state).target.value.(approved := true)))
  {
    OwnCertificateServes(inviter.setting, joiner.setting);
    var met := joiner.Authenticate(inviter.setting.self, inviter.setting.own);
    var approved := joiner.ApproveEndpoint(inviter.setting.self);
  }

  /** A valid event of the community by the joiner's user on top of the invitation. */
  predicate AcceptanceOf(joiner: Setting, invitation: Id, acceptance: SignedEvent) {
    && acceptance.content.community == Some(joiner.community) && invitation in acceptance.content.parents
    && ValidEvent(joiner.crypto, acceptance)
    && joiner.crypto.hash(acceptance.publicKey) == joiner.crypto.hash(joiner.own.userKey)
  }

  /** What the joiner proved admits its acceptance. */
  lemma AcceptanceSpends(inviter: Setting, state: State, joiner: Setting, invitation: Id, acceptance: SignedEvent)
    requires SameWorld(inviter, joiner) && AcceptanceOf(joiner, invitation, acceptance)
    requires joiner.self in state.proved && invitation in state.grants
    requires state.proved[joiner.self] == Proof(invitation, DeviceOf(joiner.crypto, joiner.own))
    ensures Spends(inviter, state, joiner.self, invitation, acceptance)
  {
  }

  /** The proof is spent on the acceptance, which waits until it is approved. */
  method ApproveJoiner(inviter: NetworkNode, joiner: Setting, invitation: Id, acceptance: SignedEvent)
    requires inviter.Valid() && SameWorld(inviter.setting, joiner) && AcceptanceOf(joiner, invitation, acceptance)
    requires joiner.self in inviter.state.proved && joiner.self !in inviter.state.acceptances
    requires inviter.state.proved[joiner.self] == Proof(invitation, DeviceOf(joiner.crypto, joiner.own))
    requires invitation in inviter.state.grants
    modifies inviter
    ensures inviter.Valid()
    ensures var proof := Proof(invitation, DeviceOf(joiner.crypto, joiner.own));
            inviter.trace == old(inviter.trace) + [Surfaced(joiner.self, proof, acceptance)]
                             + [Settled(joiner.self, proof, true)]
    ensures Admits(inviter.state, joiner.self, DeviceOf(joiner.crypto, joiner.own))
    ensures invitation !in inviter.state.grants
  {
    AcceptanceSpends(inviter.setting, inviter.state, joiner, invitation, acceptance);
    var surfaced := inviter.HandleAcceptance(joiner.self, invitation, acceptance);
    var sync := inviter.ResolveAcceptance(joiner.self, true, true);
  }

  /** The peer is authenticated with that device, whose user is allowed. */
  predicate Admits(state: State, peer: PeerId, device: Device) {
    && peer in state.authenticated && peer in state.devices && state.devices[peer] == device
    && device.user in state.allowed
  }

  /** The answer to the approved acceptance admits the approved endpoint. */
  method EnterCommunity(joiner: NetworkNode, inviter: PeerId, device: Device)
    requires joiner.Valid() && Targets(joiner.state, inviter) && joiner.state.target.value.approved
    requires inviter in joiner.state.provisional && joiner.state.provisional[inviter] == device
    modifies joiner
    ensures joiner.Valid() && joiner.trace == old(joiner.trace)
    ensures Admits(joiner.state, inviter, device) && inviter in joiner.state.accepted * joiner.state.started
  {
    var outcome := joiner.HandleResponse(inviter, BootstrapAccepted);
  }

  /** The invitation's key signs whatever is handed out. */
  ghost predicate HoldsKey(crypto: Crypto, key: Octets, sign: Octets -> Octets) {
    forall bytes :: |sign(bytes)| == 64 && crypto.verify(key, bytes, sign(bytes))
  }

  /**
   The whole way: a joiner that holds the invitation's key and targets the inviter is challenged, proves
   possession, has its acceptance approved and approves the endpoint, and each admits the other's device.
   */
  method Join(
    inviter: NetworkNode, joiner: NetworkNode, invitation: Id, nonce: Octets, sign: Octets -> Octets,
    acceptance: SignedEvent) returns (toSign: Octets)
    requires inviter != joiner && inviter.Valid() && joiner.Valid() && SameWorld(inviter.setting, joiner.setting)
    requires DeviceOf(joiner.setting.crypto, joiner.setting.own) !in inviter.setting.revoked
    requires DeviceOf(inviter.setting.crypto, inviter.setting.own) !in joiner.setting.revoked
    requires !MayAct(joiner.state.allowed, joiner.state.trusted,
                     DeviceOf(inviter.setting.crypto, inviter.setting.own))
    requires Targets(joiner.state, inviter.setting.self) && joiner.state.target.value.invitation == invitation
    requires invitation in inviter.state.grants && joiner.setting.self !in inviter.state.acceptances
    requires HoldsKey(inviter.setting.crypto, inviter.state.grants[invitation].key, sign)
    requires AcceptanceOf(joiner.setting, invitation, acceptance)
    modifies inviter, joiner
    ensures inviter.Valid() && joiner.Valid()
    ensures var mine := DeviceOf(joiner.setting.crypto, joiner.setting.own);
            var challenge := Challenge(invitation, mine, toSign);
            var grant := old(inviter.state).grants[invitation];
            inviter.trace == old(inviter.trace) + [Challenged(joiner.setting.self, challenge)]
                             + [Disclosed(joiner.setting.self, challenge, grant, sign(toSign))]
                             + [Surfaced(joiner.setting.self, Proof(invitation, mine), acceptance)]
                             + [Settled(joiner.setting.self, Proof(invitation, mine), true)]
    ensures Admits(inviter.state, joiner.setting.self, DeviceOf(joiner.setting.crypto, joiner.setting.own))
    ensures Admits(joiner.state, inviter.setting.self, DeviceOf(inviter.setting.crypto, inviter.setting.own))
    ensures invitation !in inviter.state.grants && inviter.setting.self in joiner.state.started
  {
    MeetInviter(inviter, joiner);
    toSign := ChallengeJoiner(inviter, joiner, invitation, nonce);
    ProvePossession(inviter, joiner, invitation, toSign, sign(toSign));
    ApproveJoiner(inviter, joiner.setting, invitation, acceptance);
    EnterCommunity(joiner, inviter.setting.self, DeviceOf(inviter.setting.crypto, inviter.setting.own));
  }
}
