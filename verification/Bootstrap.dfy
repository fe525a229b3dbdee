/**
 The history of an inviting node: challenges it issued, ancestries it disclosed, acceptances it
 surfaced. A history is safe when every disclosure answers the challenge that stands open for that
 peer, and every surfaced acceptance spends the proof that peer has earned; each entry takes what it
 uses away (crates/sync/src/network.rs:856-983).
 */
module Bootstrap {
  import opened Wrappers
  import opened Bytes
  import opened Protocol
  import opened Devices

  datatype Grant = Grant(invitation: Id, key: Octets, ancestry: seq<SignedEvent>)

  datatype Challenge = Challenge(invitation: Id, device: Device, proofBytes: Octets)

  datatype Proof = Proof(invitation: Id, device: Device)

  /** One entry of the history. `Closed` is a peer's last disconnection, and whether it was a relay peer then. */
  datatype Mark =
    | Challenged(peer: PeerId, challenge: Challenge)
    | Dropped(peer: PeerId)
    | Disclosed(peer: PeerId, challenge: Challenge, grant: Grant, signature: Octets)
    | Surfaced(peer: PeerId, proof: Proof, acceptance: SignedEvent)
    | Spurned(peer: PeerId)
    | Settled(peer: PeerId, proof: Proof, approved: bool)
    | Closed(peer: PeerId, relay: bool)
    | Relayed(peer: PeerId)
    | Regranted(invitations: set<Id>)

  type Trace = seq<Mark>

  // ------------------------------------------------------------------ what stands open

  /** The entry opens, answers or cancels a challenge of the peer. A relay peer's disconnection cancels nothing. */
  predicate OnChallenge(mark: Mark, peer: PeerId) {
    match mark
    case Challenged(p, _) => p == peer
    case Dropped(p) => p == peer
    case Disclosed(p, _, _, _) => p == peer
    case Closed(p, relay) => p == peer && !relay
    case _ => false
  }

  /** The entry earns, spends or cancels a proof of the peer. */
  predicate OnProof(mark: Mark, peer: PeerId) {
    match mark
    case Disclosed(p, _, _, _) => p == peer
    case Surfaced(p, _, _) => p == peer
    case Spurned(p) => p == peer
    case Closed(p, relay) => p == peer && !relay
    case _ => false
  }

  /** The entry shows, settles or cancels an acceptance of the peer. */
  predicate OnAcceptance(mark: Mark, peer: PeerId) {
    match mark
    case Surfaced(p, _, _) => p == peer
    case Settled(p, _, _) => p == peer
    case Closed(p, relay) => p == peer && !relay
    case _ => false
  }

  /** The challenge that stands open for a peer. */
  function Open(trace: Trace, peer: PeerId): Option<Challenge>
    decreases |trace|
  {
    if trace == [] then None
    else
      var init, last := trace[..|trace| - 1], trace[|trace| - 1];
      if !OnChallenge(last, peer) then Open(init, peer)
      else if last.Challenged? then Some(last.challenge) else None
  }

  /** The proof a peer has earned by an answered challenge. */
  function Earned(trace: Trace, peer: PeerId): Option<Proof>
    decreases |trace|
  {
    if trace == [] then None
    else
      var init, last := trace[..|trace| - 1], trace[|trace| - 1];
      if !OnProof(last, peer) then Earned(init, peer)
      else if last.Disclosed? then Some(Proof(last.challenge.invitation, last.challenge.device)) else None
  }

  /** The acceptance of a peer that waits for a decision. */
  function Shown(trace: Trace, peer: PeerId): Option<Proof>
    decreases |trace|
  {
    if trace == [] then None
    else
      var init, last := trace[..|trace| - 1], trace[|trace| - 1];
      if !OnAcceptance(last, peer) then Shown(init, peer)
      else if last.Surfaced? then Some(last.proof) else None
  }

  function StandingAfter(standing: set<Id>, mark: Mark): set<Id> {
    match mark
    case Regranted(invitations) => invitations
    case Settled(_, proof, approved) => if approved then standing - {proof.invitation} else standing
    case _ => standing
  }

  /** The invitations that are granted: the last replacement, without those approved since. */
  function Standing(trace: Trace): set<Id>
    decreases |trace|
  {
    if trace == [] then {} else StandingAfter(Standing(trace[..|trace| - 1]), trace[|trace| - 1])
  }

  function RelaysAfter(relays: set<PeerId>, mark: Mark): set<PeerId> {
    if mark.Relayed? then relays + {mark.peer} else relays
  }

  /** The peers that serve as relays. */
  function Relays(trace: Trace): set<PeerId>
    decreases |trace|
  {
    if trace == [] then {} else RelaysAfter(Relays(trace[..|trace| - 1]), trace[|trace| - 1])
  }

  // ------------------------------------------------------------------ safety

  /** The signature proves possession of the invitation's key for this challenge. */
  predicate Proves(crypto: Crypto, grant: Grant, challenge: Challenge, signature: Octets) {
    && grant.invitation == challenge.invitation && |signature| == SIGNATURE_LEN
    && crypto.verify(grant.key, challenge.proofBytes, signature)
  }

  /** A valid event of the community, by the proven user, on top of the invitation. */
  predicate Accepts(setting: Setting, proof: Proof, acceptance: SignedEvent) {
    && acceptance.content.community == Some(setting.community)
    && proof.invitation in acceptance.content.parents
    && ValidEvent(setting.crypto, acceptance)
    && AuthorId(setting.crypto, acceptance) == proof.device.user
  }

  /** The challenge was made for this peer, by this node, with some nonce. */
  ghost predicate MadeFor(setting: Setting, peer: PeerId, challenge: Challenge) {
    && Identified(setting, peer, challenge.device)
    && exists nonce ::
         challenge.proofBytes
         == ProofBytes(setting, challenge.invitation, challenge.device, peer, setting.self, nonce)
  }

  /** What the history must have had for the next entry to be safe. */
  ghost predicate Warranted(setting: Setting, before: Trace, mark: Mark) {
    match mark
    case Challenged(peer, challenge) =>
      MadeFor(setting, peer, challenge) && challenge.invitation in Standing(before)
    case Disclosed(peer, challenge, grant, signature) =>
      && Open(before, peer) == Some(challenge) && Proves(setting.crypto, grant, challenge, signature)
      && challenge.invitation in Standing(before)
    case Surfaced(peer, proof, acceptance) =>
      && Earned(before, peer) == Some(proof) && Accepts(setting, proof, acceptance)
      && proof.invitation in Standing(before)
    case Settled(peer, proof, _) => Shown(before, peer) == Some(proof)
    case Closed(peer, relay) => relay <==> peer in Relays(before)
    case _ => true
  }

  ghost predicate Safe(setting: Setting, trace: Trace) {
    forall n :: 0 <= n < |trace| ==> Warranted(setting, trace[..n], trace[n])
  }

  lemma SafeGrows(setting: Setting, trace: Trace, mark: Mark)
    requires Safe(setting, trace) && Warranted(setting, trace, mark)
    ensures Safe(setting, trace + [mark])
  {
    var longer := trace + [mark];
    forall n | 0 <= n < |longer|
      ensures Warranted(setting, longer[..n], longer[n])
    {
      assert longer[..n] == trace[..n];
      assert trace[..|trace|] == trace;
    }
  }

  // ------------------------------------------------------------------ where things come from

  /** An open challenge was issued, and nothing has touched it since. */
  lemma {:induction false} OpenWasIssued(trace: Trace, peer: PeerId) returns (k: nat)
    requires Open(trace, peer).Some?
    ensures k < |trace| && trace[k] == Challenged(peer, Open(trace, peer).value)
    ensures forall j :: k < j < |trace| ==> !OnChallenge(trace[j], peer)
    decreases |trace|
  {
    var n := |trace| - 1;
    if OnChallenge(trace[n], peer) {
      k := n;
    } else {
      k := OpenWasIssued(trace[..n], peer);
    }
  }

  /** An earned proof comes from a disclosure, and nothing has touched it since. */
  lemma {:induction false} EarnedWasDisclosed(trace: Trace, peer: PeerId) returns (k: nat)
    requires Earned(trace, peer).Some?
    ensures k < |trace| && trace[k].Disclosed? && trace[k].peer == peer
    ensures Earned(trace, peer).value == Proof(trace[k].challenge.invitation, trace[k].challenge.device)
    ensures forall j :: k < j < |trace| ==> !OnProof(trace[j], peer)
    decreases |trace|
  {
    var n := |trace| - 1;
    if OnProof(trace[n], peer) {
      k := n;
    } else {
      k := EarnedWasDisclosed(trace[..n], peer);
    }
  }

  lemma {:induction false} ShownWasSurfaced(trace: Trace, peer: PeerId) returns (k: nat)
    requires Shown(trace, peer).Some?
    ensures k < |trace| && trace[k].Surfaced? && trace[k].peer == peer && trace[k].proof == Shown(trace, peer).value
    ensures forall j :: k < j < |trace| ==> !OnAcceptance(trace[j], peer)
    decreases |trace|
  {
    var n := |trace| - 1;
    if OnAcceptance(trace[n], peer) {
      k := n;
    } else {
      k := ShownWasSurfaced(trace[..n], peer);
    }
  }

  lemma EarnedBefore(trace: Trace, n: nat, peer: PeerId) returns (k: nat)
    requires n <= |trace| && Earned(trace[..n], peer).Some?
    ensures k < n && trace[k].Disclosed? && trace[k].peer == peer
    ensures Earned(trace[..n], peer).value == Proof(trace[k].challenge.invitation, trace[k].challenge.device)
    ensures forall j :: k < j < n ==> !OnProof(trace[j], peer)
  {
    k := EarnedWasDisclosed(trace[..n], peer);
    assert forall j :: 0 <= j < n ==> trace[..n][j] == trace[j];
  }

  lemma ShownBefore(trace: Trace, n: nat, peer: PeerId) returns (k: nat)
    requires n <= |trace| && Shown(trace[..n], peer).Some?
    ensures k < n && trace[k].Surfaced? && trace[k].peer == peer && trace[k].proof == Shown(trace[..n], peer).value
    ensures forall j :: k < j < n ==> !OnAcceptance(trace[j], peer)
  {
    k := ShownWasSurfaced(trace[..n], peer);
    assert forall j :: 0 <= j < n ==> trace[..n][j] == trace[j];
  }

  // ------------------------------------------------------------------ the safety theorems

  /** In between the peer disconnected only while it was a relay peer. */
  ghost predicate ConnectedOrRelay(trace: Trace, from: nat, to: nat, peer: PeerId)
    requires to <= |trace|
  {
    forall j :: from < j < to && trace[j].Closed? && trace[j].peer == peer ==>
      trace[j].relay && peer in Relays(trace[..j])
  }

  /** A disconnection that leaves a challenge, a proof or an acceptance standing is one of a relay peer. */
  lemma OnlyRelaysSurvive(setting: Setting, trace: Trace, from: nat, to: nat, peer: PeerId)
    requires Safe(setting, trace) && to <= |trace|
    requires forall j :: from < j < to ==> trace[j] != Closed(peer, false)
    ensures ConnectedOrRelay(trace, from, to, peer)
  {
    forall j | from < j < to && trace[j].Closed? && trace[j].peer == peer
      ensures trace[j].relay && peer in Relays(trace[..j])
    {
      assert Warranted(setting, trace[..j], trace[j]);
    }
  }

  /**
   Every disclosure answers a challenge issued to that peer for that invitation, verified under the
   grant's key, with no other answer or newer challenge in between; the peer has not disconnected in
   between, unless it was a relay peer at that moment.
   */
  lemma DisclosureAnswersAChallenge(setting: Setting, trace: Trace, n: nat) returns (k: nat)
    requires Safe(setting, trace) && n < |trace| && trace[n].Disclosed?
    ensures k < n && trace[k] == Challenged(trace[n].peer, trace[n].challenge)
    ensures trace[n].challenge.invitation == trace[n].grant.invitation
    ensures setting.crypto.verify(trace[n].grant.key, trace[n].challenge.proofBytes, trace[n].signature)
    ensures MadeFor(setting, trace[n].peer, trace[n].challenge)
    ensures forall j :: k < j < n ==> !OnChallenge(trace[j], trace[n].peer)
    ensures ConnectedOrRelay(trace, k, n, trace[n].peer)
  {
    DisclosingNeeds(setting, trace, n);
    k := OpenWasIssued(trace[..n], trace[n].peer);
    ChallengingNeeds(setting, trace, k);
    NoneCancelled(trace, k, n, trace[n].peer);
    OnlyRelaysSurvive(setting, trace, k, n, trace[n].peer);
  }

  lemma DisclosingNeeds(setting: Setting, trace: Trace, n: nat)
    requires Safe(setting, trace) && n < |trace| && trace[n].Disclosed?
    ensures Open(trace[..n], trace[n].peer) == Some(trace[n].challenge)
    ensures Proves(setting.crypto, trace[n].grant, trace[n].challenge, trace[n].signature)
  {
    assert Warranted(setting, trace[..n], trace[n]);
  }

  lemma ChallengingNeeds(setting: Setting, trace: Trace, n: nat)
    requires Safe(setting, trace) && n < |trace| && trace[n].Challenged?
    ensures MadeFor(setting, trace[n].peer, trace[n].challenge)
  {
    assert Warranted(setting, trace[..n], trace[n]);
  }

  lemma SurfacingNeeds(setting: Setting, trace: Trace, n: nat)
    requires Safe(setting, trace) && n < |trace| && trace[n].Surfaced?
    ensures Earned(trace[..n], trace[n].peer) == Some(trace[n].proof)
    ensures Accepts(setting, trace[n].proof, trace[n].acceptance)
  {
    assert Warranted(setting, trace[..n], trace[n]);
  }

  /** Every surfaced acceptance is an event of the community on the invitation, signed by the proven user. */
  lemma SurfacedIsSigned(setting: Setting, trace: Trace, n: nat)
    requires Safe(setting, trace) && n < |trace| && trace[n].Surfaced?
    ensures var acceptance, proof := trace[n].acceptance, trace[n].proof;
            && acceptance.content.community == Some(setting.community)
            && proof.invitation in acceptance.content.parents
            && SignedByAuthor(setting.crypto, acceptance)
            && setting.crypto.hash(acceptance.publicKey) == proof.device.user
  {
    SurfacingNeeds(setting, trace, n);
    ValidIsSigned(setting.crypto, trace[n].acceptance);
  }

  /** Every disclosure was earned by a 64-byte signature under the grant's key. */
  lemma DisclosedIsProven(setting: Setting, trace: Trace, n: nat)
    requires Safe(setting, trace) && n < |trace| && trace[n].Disclosed?
    ensures |trace[n].signature| == 64 && trace[n].grant.invitation == trace[n].challenge.invitation
    ensures setting.crypto.verify(trace[n].grant.key, trace[n].challenge.proofBytes, trace[n].signature)
  {
    assert Warranted(setting, trace[..n], trace[n]);
  }

  lemma SettlingNeeds(setting: Setting, trace: Trace, n: nat)
    requires Safe(setting, trace) && n < |trace| && trace[n].Settled?
    ensures Shown(trace[..n], trace[n].peer) == Some(trace[n].proof)
  {
    assert Warranted(setting, trace[..n], trace[n]);
  }

  lemma NoneCancelled(trace: Trace, k: nat, n: nat, peer: PeerId)
    requires n <= |trace| && forall j :: k < j < n ==> !OnChallenge(trace[j], peer)
    ensures forall j :: k < j < n ==> trace[j] != Closed(peer, false)
  {
  }

  /** No challenge is answered by two disclosures. */
  lemma ChallengesAreAnsweredOnce(setting: Setting, trace: Trace, n: nat, m: nat)
    requires Safe(setting, trace) && n < m < |trace|
    requires trace[n].Disclosed? && trace[m].Disclosed? && trace[n].peer == trace[m].peer
    ensures exists k, l :: 0 <= k < n < l < m && trace[k] == Challenged(trace[n].peer, trace[n].challenge)
                           && trace[l] == Challenged(trace[m].peer, trace[m].challenge)
  {
    var k := DisclosureAnswersAChallenge(setting, trace, n);
    var l := DisclosureAnswersAChallenge(setting, trace, m);
    assert OnChallenge(trace[n], trace[m].peer);
  }

  /** Where a surfaced acceptance comes from. */
  lemma AcceptanceComesFrom(setting: Setting, trace: Trace, n: nat) returns (d: nat, c: nat)
    requires Safe(setting, trace) && n < |trace| && trace[n].Surfaced?
    ensures c < d < n && trace[d].Disclosed? && trace[d].peer == trace[n].peer
    ensures trace[c] == Challenged(trace[n].peer, trace[d].challenge)
    ensures trace[n].proof == Proof(trace[d].challenge.invitation, trace[d].challenge.device)
    ensures forall j :: d < j < n ==> !OnProof(trace[j], trace[n].peer)
    ensures forall j :: c < j < n ==> trace[j] != Closed(trace[n].peer, false)
  {
    SurfacingNeeds(setting, trace, n);
    d := EarnedBefore(trace, n, trace[n].peer);
    c := DisclosureAnswersAChallenge(setting, trace, d);
    NotClosed(trace, c, d, n, trace[n].peer);
  }

  /**
   Every surfaced acceptance spends a disclosure to that peer: same invitation, signed by the user of
   the challenged device, and since the challenge the peer has not disconnected, unless it was a relay
   peer at that moment.
   */
  lemma AcceptanceSpendsADisclosure(setting: Setting, trace: Trace, n: nat) returns (d: nat, c: nat)
    requires Safe(setting, trace) && n < |trace| && trace[n].Surfaced?
    ensures c < d < n && trace[d].Disclosed? && trace[d].peer == trace[n].peer
    ensures trace[c] == Challenged(trace[n].peer, trace[d].challenge)
    ensures trace[n].proof == Proof(trace[d].challenge.invitation, trace[d].challenge.device)
    ensures Accepts(setting, trace[n].proof, trace[n].acceptance)
    ensures forall j :: d < j < n ==> !OnProof(trace[j], trace[n].peer)
    ensures ConnectedOrRelay(trace, c, n, trace[n].peer)
  {
    SurfacingNeeds(setting, trace, n);
    d, c := AcceptanceComesFrom(setting, trace, n);
    OnlyRelaysSurvive(setting, trace, c, n, trace[n].peer);
  }

  lemma NotClosed(trace: Trace, c: nat, d: nat, n: nat, peer: PeerId)
    requires c < d < n <= |trace| && trace[d].Disclosed?
    requires forall j :: c < j < d ==> !OnChallenge(trace[j], peer)
    requires forall j :: d < j < n ==> !OnProof(trace[j], peer)
    ensures forall j :: c < j < n ==> trace[j] != Closed(peer, false)
  {
  }

  lemma NotClosedEither(trace: Trace, c: nat, a: nat, n: nat, peer: PeerId)
    requires c < a < n <= |trace| && trace[a].Surfaced?
    requires forall j :: c < j < a ==> trace[j] != Closed(peer, false)
    requires forall j :: a < j < n ==> !OnAcceptance(trace[j], peer)
    ensures forall j :: c < j < n ==> trace[j] != Closed(peer, false)
  {
  }

  /** No disclosure is spent by two acceptances. */
  lemma DisclosuresAreSpentOnce(setting: Setting, trace: Trace, n: nat, m: nat)
    requires Safe(setting, trace) && n < m < |trace|
    requires trace[n].Surfaced? && trace[m].Surfaced? && trace[n].peer == trace[m].peer
    ensures exists d :: n < d < m && trace[d].Disclosed? && trace[d].peer == trace[m].peer
  {
    SurfacingNeeds(setting, trace, m);
    var d := EarnedBefore(trace, m, trace[m].peer);
    assert OnProof(trace[n], trace[m].peer);
  }

  /**
   Every decision settles one surfaced acceptance of that peer, and so traces back to one challenge,
   since when the peer has disconnected only as a relay peer.
   */
  lemma DecisionSettlesAnAcceptance(setting: Setting, trace: Trace, n: nat) returns (a: nat, d: nat, c: nat)
    requires Safe(setting, trace) && n < |trace| && trace[n].Settled?
    ensures c < d < a < n && trace[a].Surfaced? && trace[d].Disclosed? && trace[c].Challenged?
    ensures trace[a].peer == trace[n].peer && trace[d].peer == trace[n].peer && trace[c].peer == trace[n].peer
    ensures trace[a].proof == trace[n].proof && trace[c].challenge == trace[d].challenge
    ensures trace[n].proof == Proof(trace[d].challenge.invitation, trace[d].challenge.device)
    ensures ConnectedOrRelay(trace, c, n, trace[n].peer)
  {
    SettlingNeeds(setting, trace, n);
    a := ShownBefore(trace, n, trace[n].peer);
    d, c := AcceptanceComesFrom(setting, trace, a);
    NotClosedEither(trace, c, a, n, trace[n].peer);
    OnlyRelaysSurvive(setting, trace, c, n, trace[n].peer);
  }

  // ------------------------------------------------------------------ after an approval

  /** The entry approves an acceptance of the invitation. */
  predicate Approves(mark: Mark, invitation: Id) {
    mark.Settled? && mark.approved && mark.proof.invitation == invitation
  }

  /** From entry `n` on, up to `m`, the invitation is not granted again. */
  ghost predicate NotGrantedAgain(trace: Trace, n: nat, m: nat, invitation: Id)
    requires m <= |trace|
  {
    forall j :: n < j < m && trace[j].Regranted? ==> invitation !in trace[j].invitations
  }

  lemma {:induction false} ApprovedStaysDown(trace: Trace, n: nat, m: nat, invitation: Id)
    requires n < m <= |trace| && Approves(trace[n], invitation) && NotGrantedAgain(trace, n, m, invitation)
    ensures invitation !in Standing(trace[..m])
    decreases m
  {
    var k := m - 1;
    assert trace[..m][..k] == trace[..k];
    if n < k {
      ApprovedStaysDown(trace, n, k, invitation);
    }
  }

  /** After an approval the invitation is not challenged for, disclosed or surfaced until it is granted again. */
  lemma ApprovalUsesUp(setting: Setting, trace: Trace, n: nat, m: nat, invitation: Id)
    requires Safe(setting, trace) && n < m < |trace|
    requires Approves(trace[n], invitation) && NotGrantedAgain(trace, n, m, invitation)
    ensures trace[m].Challenged? || trace[m].Disclosed? ==> trace[m].challenge.invitation != invitation
    ensures trace[m].Surfaced? ==> trace[m].proof.invitation != invitation
  {
    ApprovedStaysDown(trace, n, m, invitation);
    assert Warranted(setting, trace[..m], trace[m]);
  }

  /** An acceptance that waits still waits until an entry of its peer settles or cancels it. */
  lemma {:induction false} StillShown(trace: Trace, n: nat, m: nat, peer: PeerId)
    requires n <= m <= |trace| && forall j :: n <= j < m ==> !OnAcceptance(trace[j], peer)
    ensures Shown(trace[..m], peer) == Shown(trace[..n], peer)
    decreases m
  {
    if n < m {
      assert trace[..m][..m - 1] == trace[..m - 1];
      StillShown(trace, n, m - 1, peer);
    }
  }

  /**
   After an approval another acceptance of the same invitation may still be approved exactly when it
   was waiting at that moment and nothing has settled or cancelled it since: decisions do not consult
   the grants.
   */
  lemma SecondApproval(setting: Setting, trace: Trace, n: nat, peer: PeerId, proof: Proof)
    requires Safe(setting, trace) && n < |trace| && Approves(trace[n], proof.invitation)
    requires NotGrantedAgain(trace, n, |trace|, proof.invitation)
    ensures Warranted(setting, trace, Settled(peer, proof, true)) <==>
              Shown(trace[..n], peer) == Some(proof) && forall j :: n <= j < |trace| ==> !OnAcceptance(trace[j], peer)
  {
    assert trace[..|trace|] == trace;
    if forall j :: n <= j < |trace| ==> !OnAcceptance(trace[j], peer) {
      StillShown(trace, n, |trace|, peer);
    } else if Shown(trace, peer) == Some(proof) {
      SurfacedTooLate(setting, trace, n, peer, proof);
    }
  }

  lemma SurfacedTooLate(setting: Setting, trace: Trace, n: nat, peer: PeerId, proof: Proof)
    requires Safe(setting, trace) && n < |trace| && Approves(trace[n], proof.invitation)
    requires NotGrantedAgain(trace, n, |trace|, proof.invitation) && Shown(trace, peer) == Some(proof)
    ensures forall j :: n <= j < |trace| ==> !OnAcceptance(trace[j], peer)
  {
    var a := ShownWasSurfaced(trace, peer);
    if n < a {
      ApprovalUsesUp(setting, trace, n, a, proof.invitation);
    }
  }
}
