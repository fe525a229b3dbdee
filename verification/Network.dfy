/**
 The bookkeeping of a network node (crates/sync/src/network.rs), without its transport: who is
 authenticated, whose sync has started, and the invitation bootstrap. Every operation keeps the
 authorization invariant and a safe history.
 */
module Network {
  import opened Wrappers
  import opened Bytes
  import opened Protocol
  import opened Devices
  import opened Bootstrap
  import Json

  const MAX_BOOTSTRAP_ANCESTRY_EVENTS := 256

  datatype Target = Target(peer: PeerId, invitation: Id, approved: bool)

  datatype Response =
    | Authenticated
    | BootstrapChallenge(invitation: Id, nonce: Octets)
    | BootstrapAncestry(invitation: Id, events: seq<SignedEvent>)
    | BootstrapAccepted
    | Rejected(reason: Rejection)

  datatype NetworkError = BootstrapError | RequestError | RejectedBy(reason: Rejection) | Unauthentic(cause: AuthError)

  /** Whether sync starts, and the bytes the invitation's key is to sign, if any. */
  datatype Outcome = Outcome(hello: bool, toSign: Option<Octets>)

  datatype AuthenticationState = Full | Provisional

  /** The value of a network node. */
  datatype State = State(
    allowed: set<Id>,
    trusted: set<Id>,
    authenticated: set<PeerId>,
    devices: map<PeerId, Device>,
    sent: set<PeerId>,
    accepted: set<PeerId>,
    started: set<PeerId>,
    provisional: map<PeerId, Device>,
    grants: map<Id, Grant>,
    challenges: map<PeerId, Challenge>,
    proved: map<PeerId, Proof>,
    acceptances: map<PeerId, Proof>,
    target: Option<Target>,
    relays: set<PeerId>)

  // ------------------------------------------------------------------ the authorization invariant

  /** The device acts for an allowed user, or is trusted itself. */
  predicate MayAct(allowed: set<Id>, trusted: set<Id>, device: Device) {
    device.user in allowed || device.device in trusted
  }

  ghost predicate AllIdentified(setting: Setting, devices: map<PeerId, Device>) {
    forall p :: p in devices ==> Identified(setting, p, devices[p])
  }

  ghost predicate AllMayAct(allowed: set<Id>, trusted: set<Id>, devices: map<PeerId, Device>) {
    forall p :: p in devices ==> MayAct(allowed, trusted, devices[p])
  }

  ghost predicate ChallengesIdentified(setting: Setting, challenges: map<PeerId, Challenge>) {
    forall p :: p in challenges ==> Identified(setting, p, challenges[p].device)
  }

  ghost predicate ProofsIdentified(setting: Setting, proofs: map<PeerId, Proof>) {
    forall p :: p in proofs ==> Identified(setting, p, proofs[p].device)
  }

  /**
   Authenticated peers are those with a device; each presented a valid unrevoked certificate and may
   act; sync has started only with authenticated peers that accepted this node.
   */
  ghost predicate Authorized(setting: Setting, s: State) {
    && s.authenticated == s.devices.Keys
    && AllIdentified(setting, s.devices)
    && AllMayAct(s.allowed, s.trusted, s.devices)
    && s.started <= s.authenticated * s.accepted
    && AllIdentified(setting, s.provisional)
    && ChallengesIdentified(setting, s.challenges)
    && ProofsIdentified(setting, s.proved)
    && ProofsIdentified(setting, s.acceptances)
  }

  /** No authenticated device is revoked. */
  lemma NoRevokedDevice(setting: Setting, s: State, peer: PeerId)
    requires Authorized(setting, s) && peer in s.authenticated
    ensures s.devices[peer] !in setting.revoked
    ensures s.devices[peer].user in s.allowed || s.devices[peer].device in s.trusted
  {
    assert Identified(setting, peer, s.devices[peer]);
  }

  /** Every authenticated peer holds the key of a device certified by the user it acts for. */
  lemma AuthenticatedAreCertified(setting: Setting, s: State, peer: PeerId)
    requires Authorized(setting, s) && peer in s.authenticated
    ensures exists certificate :: SpeaksFor(setting, certificate, peer, s.devices[peer])
  {
    IdentifiedIs(setting, peer, s.devices[peer]);
    assert Identified(setting, peer, s.devices[peer]);
  }

  // ------------------------------------------------------------------ the history agrees with the maps

  function Lookup<V>(m: map<PeerId, V>, peer: PeerId): Option<V> {
    if peer in m then Some(m[peer]) else None
  }

  ghost predicate OpenAre(trace: Trace, challenges: map<PeerId, Challenge>) {
    forall p :: Open(trace, p) == Lookup(challenges, p)
  }

  ghost predicate EarnedAre(trace: Trace, proved: map<PeerId, Proof>) {
    forall p :: Earned(trace, p) == Lookup(proved, p)
  }

  ghost predicate ShownAre(trace: Trace, acceptances: map<PeerId, Proof>) {
    forall p :: Shown(trace, p) == Lookup(acceptances, p)
  }

  ghost predicate Accounted(setting: Setting, s: State, trace: Trace) {
    && Safe(setting, trace)
    && OpenAre(trace, s.challenges) && EarnedAre(trace, s.proved) && ShownAre(trace, s.acceptances)
    && Standing(trace) == s.grants.Keys && Relays(trace) == s.relays
  }

  /** What one more entry does to what stands open. */
  lemma OneMore(trace: Trace, mark: Mark, p: PeerId)
    ensures Open(trace + [mark], p) ==
              if !OnChallenge(mark, p) then Open(trace, p)
              else if mark.Challenged? then Some(mark.challenge) else None
    ensures Earned(trace + [mark], p) ==
              if !OnProof(mark, p) then Earned(trace, p)
              else if mark.Disclosed? then Some(Proof(mark.challenge.invitation, mark.challenge.device)) else None
    ensures Shown(trace + [mark], p) ==
              if !OnAcceptance(mark, p) then Shown(trace, p)
              else if mark.Surfaced? then Some(mark.proof) else None
    ensures Standing(trace + [mark]) == StandingAfter(Standing(trace), mark)
    ensures Relays(trace + [mark]) == RelaysAfter(Relays(trace), mark)
  {
    assert (trace + [mark])[..|trace|] == trace;
  }

  /** The maps of the bootstrap after an entry about one peer. */
  ghost predicate MapsFollow(s: State, mark: Mark, p: PeerId, s': State)
    requires !mark.Regranted?
  {
    && s'.challenges == (if !OnChallenge(mark, p) then s.challenges
                         else if mark.Challenged? then s.challenges[p := mark.challenge] else s.challenges - {p})
    && s'.proved == (if !OnProof(mark, p) then s.proved
                     else if mark.Disclosed? then s.proved[p := Proof(mark.challenge.invitation, mark.challenge.device)]
                     else s.proved - {p})
    && s'.acceptances == (if !OnAcceptance(mark, p) then s.acceptances
                          else if mark.Surfaced? then s.acceptances[p := mark.proof] else s.acceptances - {p})
  }

  /** The state after one entry. */
  ghost predicate Follows(s: State, mark: Mark, s': State) {
    && s'.grants.Keys == StandingAfter(s.grants.Keys, mark) && s'.relays == RelaysAfter(s.relays, mark)
    && if mark.Regranted?
       then s'.challenges == s.challenges && s'.proved == s.proved && s'.acceptances == s.acceptances
       else MapsFollow(s, mark, mark.peer, s')
  }

  lemma AccountedGrows(setting: Setting, s: State, trace: Trace, mark: Mark, s': State)
    requires Accounted(setting, s, trace) && Warranted(setting, trace, mark) && Follows(s, mark, s')
    ensures Accounted(setting, s', trace + [mark])
  {
    SafeGrows(setting, trace, mark);
    OneMore(trace, mark, []);
    MapsGrow(s, trace, mark, s');
  }

  lemma MapsGrow(s: State, trace: Trace, mark: Mark, s': State)
    requires OpenAre(trace, s.challenges) && EarnedAre(trace, s.proved) && ShownAre(trace, s.acceptances)
    requires Follows(s, mark, s')
    ensures OpenAre(trace + [mark], s'.challenges) && EarnedAre(trace + [mark], s'.proved)
    ensures ShownAre(trace + [mark], s'.acceptances)
  {
    forall p: PeerId
      ensures Open(trace + [mark], p) == Lookup(s'.challenges, p)
      ensures Earned(trace + [mark], p) == Lookup(s'.proved, p)
      ensures Shown(trace + [mark], p) == Lookup(s'.acceptances, p)
    {
      OneMore(trace, mark, p);
    }
  }

  // ------------------------------------------------------------------ grants

  /** Length of the JSON of a disclosure, {"BootstrapAncestry":{"invitation":[..],"events":[..]}}. */
  function AncestryJson(invitation: Id, events: seq<SignedEvent>): nat {
    35 + Json.IdJson(invitation) + 10 + Json.EventsJson(events) + 2
  }

  predicate DisclosureFits(invitation: Id, events: seq<SignedEvent>) {
    AncestryJson(invitation, events) <= Json.MAX_NETWORK_FRAME_BYTES
  }

  /** `validate_bootstrap_grant`. */
  predicate ValidGrant(setting: Setting, grant: Grant) {
    && 0 < |grant.ancestry| <= MAX_BOOTSTRAP_ANCESTRY_EVENTS
    && (exists e :: e in grant.ancestry && e.id == grant.invitation)
    && (forall e :: e in grant.ancestry ==> ValidEvent(setting.crypto, e) && Belongs(e, setting.community))
    && DisclosureFits(grant.invitation, grant.ancestry)
  }

  /** A grant discloses 1 to 256 valid events of the community, the invitation among them, in at most 1 MiB. */
  lemma ValidGrantIs(setting: Setting, grant: Grant)
    ensures ValidGrant(setting, grant) <==>
              && 1 <= |grant.ancestry| <= 256 && (exists e :: e in grant.ancestry && e.id == grant.invitation)
              && (forall e :: e in grant.ancestry ==> ValidEvent(setting.crypto, e) && Belongs(e, setting.community))
              && AncestryJson(grant.invitation, grant.ancestry) <= 1_048_576
  {
  }

  /** Every grant is filed under its invitation and may be disclosed. */
  ghost predicate SoundGrants(setting: Setting, grants: map<Id, Grant>) {
    forall i :: i in grants ==> grants[i].invitation == i && ValidGrant(setting, grants[i])
  }

  /** The grants by invitation; the last one of an invitation counts. */
  function GrantMap(grants: seq<Grant>): map<Id, Grant> {
    if grants == [] then map[]
    else
      var last := grants[|grants| - 1];
      GrantMap(grants[..|grants| - 1])[last.invitation := last]
  }
}
