/** The network node object and its operations (crates/sync/src/network.rs). */
module NetworkNodes {
  import opened Wrappers
  import opened Bytes
  import opened Protocol
  import opened Devices
  import opened Bootstrap
  import opened Network

  class NetworkNode {
    const setting: Setting
    /** The node's sets and maps. */
    var state: State
    /** Everything that happened, for the record only. */
    ghost var trace: Trace

    ghost predicate Valid()
      reads this
    {
      OwnFault(setting).None? && Kept(setting, state, trace)
    }

    constructor (setting: Setting, allowed: set<Id>)
      requires OwnFault(setting).None?
      ensures Valid() && this.setting == setting && trace == []
      ensures state == State(allowed, {}, {}, map[], {}, {}, {}, map[], map[], map[], map[], map[], None, {})
    {
      this.setting, trace := setting, [];
      state := State(allowed, {}, {}, map[], {}, {}, {}, map[], map[], map[], map[], map[], None, {});
    }

    /** `new`: the certificate must be valid and name this node's own device. */
    static method Create(setting: Setting, allowed: set<Id>) returns (r: Result<NetworkNode, NetworkError>)
      ensures r.Err? <==> OwnFault(setting).Some?
      ensures r.Err? ==> r.error == Unauthentic(OwnFault(setting).value)
      ensures r.Ok? ==>
                && fresh(r.value) && r.value.Valid() && r.value.setting == setting && r.value.trace == []
                && r.value.state
                   == State(allowed, {}, {}, map[], {}, {}, {}, map[], map[], map[], map[], map[], None, {})
    {
      var fault := OwnFault(setting);
      if fault.Some? {
        return Err(Unauthentic(fault.value));
      }
      var node := new NetworkNode(setting, allowed);
      return Ok(node);
    }

    /** Sync starts once, when the peer is authenticated and has accepted this node. */
    method MaybeStartSync(peer: PeerId) returns (hello: bool)
      requires Valid()
      modifies this
      ensures Valid() && trace == old(trace)
      ensures hello == (peer in state.authenticated && peer in state.accepted && peer !in old(state).started)
      ensures state == old(state).(started := if hello then old(state).started + {peer} else old(state).started)
    {
      hello := peer in state.authenticated && peer in state.accepted && peer !in state.started;
      if hello {
        StartKeeps(setting, state, trace, peer);
        state := state.(started := state.started + {peer});
      }
    }

    /** `authenticate`. */
    method Authenticate(peer: PeerId, certificate: DeviceCertificate)
      returns (r: Result<AuthenticationState, Rejection>)
      requires Valid()
      modifies this
      ensures Valid() && trace == old(trace)
      ensures PeerFault(setting, peer, certificate).Some? ==>
                r == Err(PeerFault(setting, peer, certificate).value) && state == old(state)
      ensures PeerFault(setting, peer, certificate).None? ==>
                var device := DeviceOf(setting.crypto, certificate);
                if MayAct(old(state).allowed, old(state).trusted, device) then
                  r == Ok(Full) && state == Admitted(old(state), peer, device)
                else if old(state).target.Some? && old(state).target.value.peer == peer then
                  r == Ok(Provisional) && state == old(state).(provisional := old(state).provisional[peer := device])
                else r == Err(UserNotAllowed) && state == old(state)
    {
      var fault := PeerFault(setting, peer, certificate);
      if fault.Some? {
        return Err(fault.value);
      }
      var device := DeviceOf(setting.crypto, certificate);
      assert Identified(setting, peer, device);
      if MayAct(state.allowed, state.trusted, device) {
        AdmissionKeeps(setting, state, trace, peer, device);
        state := state.(authenticated := state.authenticated + {peer}, devices := state.devices[peer := device]);
        return Ok(Full);
      }
      if state.target.Some? && state.target.value.peer == peer {
        ProvisionKeeps(setting, state, trace, peer, device);
        state := state.(provisional := state.provisional[peer := device]);
        return Ok(Provisional);
      }
      return Err(UserNotAllowed);
    }

    /** `begin_bootstrap`: challenges an identified peer for a granted invitation. */
    method BeginBootstrap(peer: PeerId, certificate: DeviceCertificate, invitation: Id, nonce: Octets)
      returns (r: Response)
      requires Valid()
      modifies this
      ensures Valid()
      ensures r.BootstrapChallenge? <==> PeerFault(setting, peer, certificate).None? && invitation in old(state).grants
      ensures r.BootstrapChallenge? ==>
                var device := DeviceOf(setting.crypto, certificate);
                var challenge :=
                  Challenge(invitation, device, ProofBytes(setting, invitation, device, peer, setting.self, nonce));
                && r == BootstrapChallenge(invitation, nonce)
                && state == old(state).(challenges := old(state).challenges[peer := challenge])
                && trace == old(trace) + [Challenged(peer, challenge)]
      ensures !r.BootstrapChallenge? ==>
                && state == old(state) && trace == old(trace)
                && r == Rejected(if PeerFault(setting, peer, certificate).Some?
                                 then PeerFault(setting, peer, certificate).value else InvitationUnavailable)
    {
      var fault := PeerFault(setting, peer, certificate);
      if fault.Some? {
        return Rejected(fault.value);
      }
      if invitation !in state.grants {
        return Rejected(InvitationUnavailable);
      }
      var device := DeviceOf(setting.crypto, certificate);
      var bytes := ProofBytes(setting, invitation, device, peer, setting.self, nonce);
      var challenge := Challenge(invitation, device, bytes);
      assert Identified(setting, peer, device);
      ChallengeKeeps(setting, state, trace, peer, challenge, nonce);
      state := state.(challenges := state.challenges[peer := challenge]);
      trace := trace + [Challenged(peer, challenge)];
      return BootstrapChallenge(invitation, nonce);
    }

    /**
     `prove_bootstrap`: takes the open challenge away in any case, and discloses the current grant's
     ancestry exactly when the signature answers that challenge under the grant's key.
     */
    method ProveBootstrap(peer: PeerId, invitation: Id, signature: Octets) returns (r: Response)
      requires Valid()
      modifies this
      ensures Valid()
      ensures Answers(setting, old(state), peer, invitation, signature) ==>
                && r == BootstrapAncestry(invitation, old(state).grants[invitation].ancestry)
                && state == Proven(old(state), peer)
                && trace == old(trace) + [
                     Disclosed(peer, old(state).challenges[peer], old(state).grants[invitation], signature)]
      ensures !Answers(setting, old(state), peer, invitation, signature) ==>
                && state == old(state).(challenges := old(state).challenges - {peer})
                && trace == old(trace) + [Dropped(peer)]
                && r == Rejected(if peer in old(state).challenges && invitation !in old(state).grants
                                 then InvitationUnavailable else InvalidBootstrap)
    {
      if peer !in state.challenges {
        DropChallenge(peer);
        return Rejected(InvalidBootstrap);
      }
      var pending := state.challenges[peer];
      if invitation !in state.grants {
        DropChallenge(peer);
        return Rejected(InvitationUnavailable);
      }
      var grant := state.grants[invitation];
      if pending.invitation != invitation || |signature| != SIGNATURE_LEN
         || !setting.crypto.verify(grant.key, pending.proofBytes, signature) {
        DropChallenge(peer);
        return Rejected(InvalidBootstrap);
      }
      Disclose(peer, invitation, signature);
      return BootstrapAncestry(invitation, grant.ancestry);
    }

    method DropChallenge(peer: PeerId)
      requires Valid()
      modifies this
      ensures Valid() && trace == old(trace) + [Dropped(peer)]
      ensures state == old(state).(challenges := old(state).challenges - {peer})
    {
      DropKeeps(setting, state, trace, peer);
      state := state.(challenges := state.challenges - {peer});
      trace := trace + [Dropped(peer)];
    }

    /** The answered challenge becomes a proof. */
    method Disclose(peer: PeerId, ghost invitation: Id, ghost signature: Octets)
      requires Valid() && Answers(setting, state, peer, invitation, signature)
      modifies this
      ensures Valid() && state == Proven(old(state), peer)
      ensures trace
              == old(trace) + [Disclosed(peer, old(state).challenges[peer], old(state).grants[invitation], signature)]
    {
      DisclosureKeeps(setting, state, trace, peer, invitation, signature);
      var pending := state.challenges[peer];
      state := state.(challenges := state.challenges - {peer},
                      proved := state.proved[peer := Proof(pending.invitation, pending.device)]);
      trace := trace + [Disclosed(peer, pending, state.grants[invitation], signature)];
    }

    /**
     `handle_bootstrap_acceptance`: takes the proof away in any case, and surfaces the acceptance when
     the proof is for that invitation, the grant still stands, the event is a valid one by the proven
     user on top of the invitation, and no other acceptance of the peer waits.
     */
    method HandleAcceptance(peer: PeerId, invitation: Id, acceptance: SignedEvent) returns (surfaced: bool)
      requires Valid()
      modifies this
      ensures Valid()
      ensures surfaced <==>
                Spends(setting, old(state), peer, invitation, acceptance) && peer !in old(state).acceptances
      ensures surfaced ==>
                && state == Waiting(old(state), peer)
                && trace == old(trace) + [Surfaced(peer, old(state).proved[peer], acceptance)]
      ensures !surfaced ==>
                state == old(state).(proved := old(state).proved - {peer}) && trace == old(trace) + [Spurned(peer)]
    {
      surfaced := Spends(setting, state, peer, invitation, acceptance) && peer !in state.acceptances;
      if surfaced {
        Surface(peer, invitation, acceptance);
      } else {
        Spurn(peer);
      }
    }

    /** The proof becomes an acceptance that waits for a decision. */
    method Surface(peer: PeerId, ghost invitation: Id, ghost acceptance: SignedEvent)
      requires Valid() && Spends(setting, state, peer, invitation, acceptance)
      modifies this
      ensures Valid() && state == Waiting(old(state), peer)
      ensures trace == old(trace) + [Surfaced(peer, old(state).proved[peer], acceptance)]
    {
      SurfacingKeeps(setting, state, trace, peer, invitation, acceptance);
      var proof := state.proved[peer];
      state := state.(proved := state.proved - {peer}, acceptances := state.acceptances[peer := proof]);
      trace := trace + [Surfaced(peer, proof, acceptance)];
    }

    method Spurn(peer: PeerId)
      requires Valid()
      modifies this
      ensures Valid() && trace == old(trace) + [Spurned(peer)]
      ensures state == old(state).(proved := old(state).proved - {peer})
    {
      SpurningKeeps(setting, state, trace, peer);
      state := state.(proved := state.proved - {peer});
      trace := trace + [Spurned(peer)];
    }

    /**
     `resolve_bootstrap_acceptance`: an approval removes the invitation's grant, allows the proven user
     and authenticates the peer; sync may start unless the answer could not be sent.
     */
    method ResolveAcceptance(peer: PeerId, approved: bool, channelOpen: bool) returns (r: Result<bool, NetworkError>)
      requires Valid()
      modifies this
      ensures Valid()
      ensures peer !in old(state).acceptances ==> r == Err(BootstrapError) && state == old(state) && trace == old(trace)
      ensures peer in old(state).acceptances ==>
                && trace == old(trace) + [Settled(peer, old(state).acceptances[peer], approved)]
                && r == (if !channelOpen then Err(RequestError)
                         else Ok(approved && peer in old(state).accepted && peer !in old(state).started))
                && state == Decided(old(state), peer, approved).(
                               started := if r == Ok(true) then old(state).started + {peer} else old(state).started)
    {
      if peer !in state.acceptances {
        return Err(BootstrapError);
      }
      Settle(peer, approved);
      if !channelOpen {
        return Err(RequestError);
      }
      var hello := false;
      if approved {
        hello := MaybeStartSync(peer);
      }
      return Ok(hello);
    }

    /** The waiting acceptance is decided. */
    method Settle(peer: PeerId, approved: bool)
      requires Valid() && peer in state.acceptances
      modifies this
      ensures Valid() && trace == old(trace) + [Settled(peer, old(state).acceptances[peer], approved)]
      ensures state == Decided(old(state), peer, approved)
    {
      SettlingKeeps(setting, state, trace, peer, approved);
      var proof := state.acceptances[peer];
      state := state.(acceptances := state.acceptances - {peer});
      trace := trace + [Settled(peer, proof, approved)];
      if approved {
        state := state.(grants := state.grants - {proof.invitation}, allowed := state.allowed + {proof.device.user},
                        authenticated := state.authenticated + {peer}, devices := state.devices[peer := proof.device]);
      }
    }

    /**
     `handle_response`, but for the Sync answer: refusals change nothing; a challenge is turned into
     the bytes to sign; the other answers that matter admit or start sync.
     */
    method HandleResponse(peer: PeerId, response: Response) returns (r: Result<Outcome, NetworkError>)
      requires Valid()
      modifies this
      ensures Valid() && trace == old(trace)
      ensures r.Err? <==> ResponseFault(setting, old(state), peer, response).Some?
      ensures r.Err? ==> Some(r.error) == ResponseFault(setting, old(state), peer, response) && state == old(state)
      ensures r.Ok? ==>
                var s := Welcomed(old(state), peer, response);
                && r.value.hello == (peer in s.authenticated && peer in s.accepted && peer !in s.started
                                     && (response.Authenticated? || response.BootstrapAccepted?))
                && state == s.(started := if r.value.hello then s.started + {peer} else s.started)
                && r.value.toSign == ToSign(setting, peer, response)
    {
      var fault := ResponseFault(setting, state, peer, response);
      if fault.Some? {
        return Err(fault.value);
      }
      var hello := false;
      match response {
        case Authenticated =>
          Welcome(peer, response);
          hello := MaybeStartSync(peer);
        case BootstrapAccepted =>
          Welcome(peer, response);
          hello := MaybeStartSync(peer);
        case _ =>
      }
      return Ok(Outcome(hello, ToSign(setting, peer, response)));
    }

    /** Records that the peer accepted this node, and admits an approved endpoint. */
    method Welcome(peer: PeerId, response: Response)
      requires Valid() && ResponseFault(setting, state, peer, response).None?
      modifies this
      ensures Valid() && trace == old(trace) && state == Welcomed(old(state), peer, response)
    {
      WelcomeKeeps(setting, state, trace, peer, response);
      match response {
        case Authenticated =>
          state := state.(accepted := state.accepted + {peer});
        case BootstrapAccepted =>
          var device := state.provisional[peer];
          state := state.(provisional := state.provisional - {peer}, allowed := state.allowed + {device.user},
                          authenticated := state.authenticated + {peer}, devices := state.devices[peer := device],
                          accepted := state.accepted + {peer});
        case _ =>
      }
    }

    /** The connection-closed step: once the last connection has gone, all but relay peers are forgotten. */
    method ConnectionClosed(peer: PeerId, remaining: nat)
      requires Valid()
      modifies this
      ensures Valid()
      ensures remaining > 0 ==> state == old(state) && trace == old(trace)
      ensures remaining == 0 ==>
                state == AfterClose(old(state), peer) && trace == old(trace) + [Closed(peer, peer in old(state).relays)]
    {
      if remaining > 0 {
        return;
      }
      ClosingKeeps(setting, state, trace, peer);
      trace := trace + [Closed(peer, peer in state.relays)];
      if peer in state.relays {
        return;
      }
      state := state.(
        authenticated := state.authenticated - {peer}, devices := state.devices - {peer}, sent := state.sent - {peer},
        accepted := state.accepted - {peer}, started := state.started - {peer},
        provisional := state.provisional - {peer}, challenges := state.challenges - {peer},
        proved := state.proved - {peer}, acceptances := state.acceptances - {peer});
    }

    /** `replace_authorization`: peers that may no longer act are dismissed one by one. */
    method ReplaceAuthorization(users: set<Id>, devices: set<Id>)
      requires Valid()
      modifies this
      ensures Valid() && trace == old(trace) && state == Reauthorized(old(state), users, devices)
    {
      ReauthorizationKeeps(setting, state, trace, users, devices);
      state := state.(allowed := users, trusted := devices);
      state := DismissEach(state, Barred(state));
    }

    /** `replace_bootstrap_grants`: all of the grants are valid and replace the old ones, or nothing changes. */
    method ReplaceGrants(grants: seq<Grant>) returns (r: Result<(), NetworkError>)
      requires Valid()
      modifies this
      ensures Valid() && (r.Ok? <==> forall g :: g in grants ==> ValidGrant(setting, g))
      ensures r.Ok? ==> state == old(state).(grants := GrantMap(grants))
                        && trace == old(trace) + [Regranted(GrantMap(grants).Keys)]
      ensures r.Err? ==> state == old(state) && trace == old(trace)
    {
      var replacement := CollectGrants(g => ValidGrant(setting, g), grants);
      if replacement.None? {
        return Err(BootstrapError);
      }
      GrantMapIsSound(setting, grants);
      RegrantKeeps(setting, state, trace, replacement.value);
      state := state.(grants := replacement.value);
      trace := trace + [Regranted(replacement.value.Keys)];
      return Ok(());
    }

    /** `register_bootstrap_grant`: a valid grant is added, or replaces the one of its invitation. */
    method RegisterGrant(grant: Grant) returns (r: Result<(), NetworkError>)
      requires Valid()
      modifies this
      ensures Valid() && (r.Ok? <==> ValidGrant(setting, grant))
      ensures r.Ok? ==> state == old(state).(grants := old(state).grants[grant.invitation := grant])
                        && trace == old(trace) + [Regranted(old(state).grants.Keys + {grant.invitation})]
      ensures r.Err? ==> r.error == BootstrapError && state == old(state) && trace == old(trace)
    {
      if !ValidGrant(setting, grant) {
        return Err(BootstrapError);
      }
      var grants := state.grants[grant.invitation := grant];
      OneMoreGrantIsSound(setting, state.grants, grant);
      RegrantKeeps(setting, state, trace, grants);
      trace := trace + [Regranted(state.grants.Keys + {grant.invitation})];
      state := state.(grants := grants);
      return Ok(());
    }

    /** `configure_bootstrap_target`: once. */
    method ConfigureTarget(peer: PeerId, invitation: Id) returns (r: Result<(), NetworkError>)
      requires Valid()
      modifies this
      ensures Valid() && trace == old(trace) && (r.Ok? <==> old(state).target.None?)
      ensures state == if r.Ok? then old(state).(target := Some(Target(peer, invitation, false))) else old(state)
    {
      if state.target.Some? {
        return Err(BootstrapError);
      }
      RetargetKeeps(setting, state, trace, Some(Target(peer, invitation, false)));
      state := state.(target := Some(Target(peer, invitation, false)));
      return Ok(());
    }

    /** `approve_bootstrap_endpoint`: the target, once it has presented a certificate. */
    method ApproveEndpoint(peer: PeerId) returns (r: Result<(), NetworkError>)
      requires Valid()
      modifies this
      ensures Valid() && trace == old(trace)
      ensures r.Ok? <==> Targets(old(state), peer) && peer in old(state).provisional
      ensures r.Ok? ==> state == old(state).(target := Some(old(state).target.value.(approved := true)))
      ensures r.Err? ==> state == old(state)
    {
      if !Targets(state, peer) || peer !in state.provisional {
        return Err(BootstrapError);
      }
      RetargetKeeps(setting, state, trace, Some(state.target.value.(approved := true)));
      state := state.(target := Some(state.target.value.(approved := true)));
      return Ok(());
    }

    /** A connection to a peer: relays are left alone, others are sent a certificate unless authenticated. */
    method ConnectionEstablished(peer: PeerId) returns (authenticates: bool)
      requires Valid()
      modifies this
      ensures Valid() && trace == old(trace)
      ensures authenticates == (peer !in state.relays && peer !in state.authenticated && peer !in old(state).sent)
      ensures state == old(state).(sent := if authenticates then old(state).sent + {peer} else old(state).sent)
    {
      authenticates := peer !in state.relays && peer !in state.authenticated && peer !in state.sent;
      if authenticates {
        SendingKeeps(setting, state, trace, peer);
        state := state.(sent := state.sent + {peer});
      }
    }

    /** Dialing or reserving through a relay makes it a relay peer. */
    method UseRelay(relay: PeerId)
      requires Valid()
      modifies this
      ensures Valid() && trace == old(trace) + [Relayed(relay)]
      ensures state == old(state).(relays := old(state).relays + {relay})
    {
      RelayKeeps(setting, state, trace, relay);
      state := state.(relays := state.relays + {relay});
      trace := trace + [Relayed(relay)];
    }
  }

  // ------------------------------------------------------------------ states and lemmas

  /** The peer is authenticated with the device. */
  function Admitted(s: State, peer: PeerId, device: Device): State {
    s.(authenticated := s.authenticated + {peer}, devices := s.devices[peer := device])
  }

  ghost predicate Kept(setting: Setting, s: State, trace: Trace) {
    Authorized(setting, s) && SoundGrants(setting, s.grants) && Accounted(setting, s, trace)
  }

  /** Changes outside the bootstrap maps need only keep authorization. */
  lemma SameAccounts(setting: Setting, s: State, s': State, trace: Trace)
    requires Accounted(setting, s, trace)
    requires s'.challenges == s.challenges && s'.proved == s.proved && s'.acceptances == s.acceptances
    requires s'.grants == s.grants && s'.relays == s.relays
    ensures Accounted(setting, s', trace)
  {
  }

  lemma StartKeeps(setting: Setting, s: State, trace: Trace, peer: PeerId)
    requires Kept(setting, s, trace) && peer in s.authenticated && peer in s.accepted
    ensures Kept(setting, s.(started := s.started + {peer}), trace)
  {
    SameAccounts(setting, s, s.(started := s.started + {peer}), trace);
  }

  lemma AdmissionKeeps(setting: Setting, s: State, trace: Trace, peer: PeerId, device: Device)
    requires Kept(setting, s, trace) && Identified(setting, peer, device) && MayAct(s.allowed, s.trusted, device)
    ensures Kept(setting, Admitted(s, peer, device), trace)
  {
    SameAccounts(setting, s, Admitted(s, peer, device), trace);
    AdmissionIsAuthorized(setting, s, peer, device);
  }

  lemma AdmissionIsAuthorized(setting: Setting, s: State, peer: PeerId, device: Device)
    requires Authorized(setting, s) && Identified(setting, peer, device) && MayAct(s.allowed, s.trusted, device)
    ensures Authorized(setting, Admitted(s, peer, device))
  {
  }

  lemma ProvisionKeeps(setting: Setting, s: State, trace: Trace, peer: PeerId, device: Device)
    requires Kept(setting, s, trace) && Identified(setting, peer, device)
    ensures Kept(setting, s.(provisional := s.provisional[peer := device]), trace)
  {
    SameAccounts(setting, s, s.(provisional := s.provisional[peer := device]), trace);
  }

  lemma ChallengeKeeps(setting: Setting, s: State, trace: Trace, peer: PeerId, challenge: Challenge, nonce: Octets)
    requires Kept(setting, s, trace) && Identified(setting, peer, challenge.device) && challenge.invitation in s.grants
    requires challenge.proofBytes
             == ProofBytes(setting, challenge.invitation, challenge.device, peer, setting.self, nonce)
    ensures Kept(setting, s.(challenges := s.challenges[peer := challenge]), trace + [Challenged(peer, challenge)])
  {
    var s' := s.(challenges := s.challenges[peer := challenge]);
    assert MadeFor(setting, peer, challenge);
    AccountedGrows(setting, s, trace, Challenged(peer, challenge), s');
    ChallengeIsAuthorized(setting, s, peer, challenge);
  }

  lemma ChallengeIsAuthorized(setting: Setting, s: State, peer: PeerId, challenge: Challenge)
    requires Authorized(setting, s) && Identified(setting, peer, challenge.device)
    ensures Authorized(setting, s.(challenges := s.challenges[peer := challenge]))
  {
  }

  /** The signature answers the challenge that stands open, under the key of the current grant. */
  predicate Answers(setting: Setting, s: State, peer: PeerId, invitation: Id, signature: Octets) {
    && peer in s.challenges && invitation in s.grants
    && s.challenges[peer].invitation == invitation && |signature| == SIGNATURE_LEN
    && setting.crypto.verify(s.grants[invitation].key, s.challenges[peer].proofBytes, signature)
  }

  /** The signature proves possession of the granted key for the challenge that stands open. */
  lemma AnswersProve(setting: Setting, s: State, peer: PeerId, invitation: Id, signature: Octets)
    requires SoundGrants(setting, s.grants)
    ensures Answers(setting, s, peer, invitation, signature) <==>
              && peer in s.challenges && invitation in s.grants && s.challenges[peer].invitation == invitation
              && Proves(setting.crypto, s.grants[invitation], s.challenges[peer], signature)
  {
  }

  /** The challenge has become a proof. */
  function Proven(s: State, peer: PeerId): State
    requires peer in s.challenges
  {
    var challenge := s.challenges[peer];
    s.(challenges := s.challenges - {peer}, proved := s.proved[peer := Proof(challenge.invitation, challenge.device)])
  }

  lemma DropKeeps(setting: Setting, s: State, trace: Trace, peer: PeerId)
    requires Kept(setting, s, trace)
    ensures Kept(setting, s.(challenges := s.challenges - {peer}), trace + [Dropped(peer)])
  {
    AccountedGrows(setting, s, trace, Dropped(peer), s.(challenges := s.challenges - {peer}));
  }

  lemma DisclosureKeeps(setting: Setting, s: State, trace: Trace, peer: PeerId, invitation: Id, signature: Octets)
    requires Kept(setting, s, trace) && Answers(setting, s, peer, invitation, signature)
    ensures Kept(setting, Proven(s, peer),
                 trace + [Disclosed(peer, s.challenges[peer], s.grants[invitation], signature)])
  {
    var mark := Disclosed(peer, s.challenges[peer], s.grants[invitation], signature);
    assert s.grants[invitation].invitation == invitation;
    assert Proves(setting.crypto, mark.grant, mark.challenge, signature);
    assert Open(trace, peer) == Lookup(s.challenges, peer);
    AccountedGrows(setting, s, trace, mark, Proven(s, peer));
    ProvenIsAuthorized(setting, s, peer);
  }

  lemma ProvenIsAuthorized(setting: Setting, s: State, peer: PeerId)
    requires Authorized(setting, s) && peer in s.challenges
    ensures Authorized(setting, Proven(s, peer))
  {
  }

  /** The acceptance is backed by the peer's proof and a standing grant. */
  predicate Spends(setting: Setting, s: State, peer: PeerId, invitation: Id, acceptance: SignedEvent) {
    && peer in s.proved && invitation in s.grants && s.proved[peer].invitation == invitation
    && Accepts(setting, s.proved[peer], acceptance)
  }

  /** The proof has become an acceptance that waits for a decision. */
  function Waiting(s: State, peer: PeerId): State
    requires peer in s.proved
  {
    s.(proved := s.proved - {peer}, acceptances := s.acceptances[peer := s.proved[peer]])
  }

  lemma SurfacingKeeps(setting: Setting, s: State, trace: Trace, peer: PeerId, invitation: Id, acceptance: SignedEvent)
    requires Kept(setting, s, trace) && Spends(setting, s, peer, invitation, acceptance)
    ensures Kept(setting, Waiting(s, peer), trace + [Surfaced(peer, s.proved[peer], acceptance)])
  {
    assert Earned(trace, peer) == Lookup(s.proved, peer);
    AccountedGrows(setting, s, trace, Surfaced(peer, s.proved[peer], acceptance), Waiting(s, peer));
    WaitingIsAuthorized(setting, s, peer);
  }

  lemma WaitingIsAuthorized(setting: Setting, s: State, peer: PeerId)
    requires Authorized(setting, s) && peer in s.proved
    ensures Authorized(setting, Waiting(s, peer))
  {
  }

  lemma SpurningKeeps(setting: Setting, s: State, trace: Trace, peer: PeerId)
    requires Kept(setting, s, trace)
    ensures Kept(setting, s.(proved := s.proved - {peer}), trace + [Spurned(peer)])
  {
    AccountedGrows(setting, s, trace, Spurned(peer), s.(proved := s.proved - {peer}));
  }

  /** The waiting acceptance has been approved. */
  function Promoted(s: State, peer: PeerId): State
    requires peer in s.acceptances
  {
    var proof := s.acceptances[peer];
    s.(acceptances := s.acceptances - {peer}, grants := s.grants - {proof.invitation},
       allowed := s.allowed + {proof.device.user}, authenticated := s.authenticated + {peer},
       devices := s.devices[peer := proof.device])
  }

  /** The waiting acceptance has been decided. */
  function Decided(s: State, peer: PeerId, approved: bool): State
    requires peer in s.acceptances
  {
    if approved then Promoted(s, peer) else s.(acceptances := s.acceptances - {peer})
  }

  lemma SettlingKeeps(setting: Setting, s: State, trace: Trace, peer: PeerId, approved: bool)
    requires Kept(setting, s, trace) && peer in s.acceptances
    ensures Kept(setting, Decided(s, peer, approved), trace + [Settled(peer, s.acceptances[peer], approved)])
  {
    DecisionIsAccounted(setting, s, trace, peer, approved);
    DecisionIsAuthorized(setting, s, peer, approved);
  }

  lemma DecisionIsAuthorized(setting: Setting, s: State, peer: PeerId, approved: bool)
    requires Authorized(setting, s) && SoundGrants(setting, s.grants) && peer in s.acceptances
    ensures Authorized(setting, Decided(s, peer, approved)) && SoundGrants(setting, Decided(s, peer, approved).grants)
  {
    if approved {
      PromotionIsAuthorized(setting, s, peer);
    } else {
      DenialIsAuthorized(setting, s, peer);
    }
  }

  lemma DecisionIsAccounted(setting: Setting, s: State, trace: Trace, peer: PeerId, approved: bool)
    requires Accounted(setting, s, trace) && peer in s.acceptances
    ensures Accounted(setting, Decided(s, peer, approved), trace + [Settled(peer, s.acceptances[peer], approved)])
  {
    assert Shown(trace, peer) == Lookup(s.acceptances, peer);
    AccountedGrows(setting, s, trace, Settled(peer, s.acceptances[peer], approved), Decided(s, peer, approved));
  }

  lemma DenialIsAuthorized(setting: Setting, s: State, peer: PeerId)
    requires Authorized(setting, s)
    ensures Authorized(setting, s.(acceptances := s.acceptances - {peer}))
  {
  }

  lemma PromotionIsAuthorized(setting: Setting, s: State, peer: PeerId)
    requires Authorized(setting, s) && peer in s.acceptances
    ensures Authorized(setting, Promoted(s, peer))
  {
  }

  // ------------------------------------------------------------------ responses

  predicate Targets(s: State, peer: PeerId) {
    s.target.Some? && s.target.value.peer == peer
  }

  /** The ancestry a bootstrap target may disclose to this node. */
  function AncestryFault(setting: Setting, invitation: Id, events: seq<SignedEvent>): Option<NetworkError> {
    if events == [] || |events| > MAX_BOOTSTRAP_ANCESTRY_EVENTS then Some(RejectedBy(FrameLimit))
    else if exists e :: e in events && !(ValidEvent(setting.crypto, e) && Belongs(e, setting.community))
      then Some(RejectedBy(InvalidBootstrap))
    else if forall e :: e in events ==> e.id != invitation then Some(RejectedBy(InvalidBootstrap))
    else None
  }

  /** Why a response is refused. */
  function ResponseFault(setting: Setting, s: State, peer: PeerId, response: Response): Option<NetworkError> {
    match response
    case Authenticated => None
    case BootstrapChallenge(invitation, _) =>
      if !(Targets(s, peer) && s.target.value.invitation == invitation) then Some(BootstrapError)
      else if CertificateFault(setting.crypto, setting.own).Some?
        then Some(Unauthentic(CertificateFault(setting.crypto, setting.own).value))
      else None
    case BootstrapAncestry(invitation, events) =>
      if !(Targets(s, peer) && s.target.value.invitation == invitation) then Some(BootstrapError)
      else AncestryFault(setting, invitation, events)
    case BootstrapAccepted =>
      if Targets(s, peer) && s.target.value.approved && peer in s.provisional then None else Some(BootstrapError)
    case Rejected(reason) =>
      if reason == UserNotAllowed && Targets(s, peer) then None else Some(RejectedBy(reason))
  }

  /** Which responses are taken. */
  lemma ResponseIsTaken(setting: Setting, s: State, peer: PeerId, response: Response)
    ensures ResponseFault(setting, s, peer, response) == None <==>
              match response
              case Authenticated => true
              case BootstrapChallenge(invitation, _) =>
                && s.target.Some? && s.target.value.peer == peer && s.target.value.invitation == invitation
                && ValidCertificate(setting.crypto, setting.own)
              case BootstrapAncestry(invitation, events) =>
                && s.target.Some? && s.target.value.peer == peer && s.target.value.invitation == invitation
                && 1 <= |events| <= 256 && (exists e :: e in events && e.id == invitation)
                && forall e :: e in events ==> ValidEvent(setting.crypto, e) && Belongs(e, setting.community)
              case BootstrapAccepted =>
                s.target.Some? && s.target.value.peer == peer && s.target.value.approved && peer in s.provisional
              case Rejected(reason) => reason == UserNotAllowed && s.target.Some? && s.target.value.peer == peer
  {
  }

  /** What a refused response is reported as. */
  lemma RefusedResponseIs(setting: Setting, s: State, peer: PeerId, response: Response)
    requires ResponseFault(setting, s, peer, response).Some?
    ensures var error := ResponseFault(setting, s, peer, response).value;
            var expected := s.target.Some? && s.target.value.peer == peer;
            match response
            case Authenticated => false
            case BootstrapAccepted => error == BootstrapError
            case BootstrapChallenge(invitation, _) =>
              if !expected || s.target.value.invitation != invitation then error == BootstrapError
              else Some(error.cause) == CertificateFault(setting.crypto, setting.own)
            case BootstrapAncestry(invitation, events) =>
              error == if !expected || s.target.value.invitation != invitation then BootstrapError
                       else if 1 <= |events| <= 256 then RejectedBy(InvalidBootstrap)
                       else RejectedBy(FrameLimit)
            case Rejected(reason) => error == RejectedBy(reason)
  {
  }

  /** What the invitation's key is to sign in answer to a challenge: the bytes the other side verifies. */
  function ToSign(setting: Setting, peer: PeerId, response: Response): Option<Octets> {
    match response
    case BootstrapChallenge(invitation, nonce) =>
      Some(ProofBytes(setting, invitation, DeviceOf(setting.crypto, setting.own), setting.self, peer, nonce))
    case _ => None
  }

  /** The state after a response that was not refused, before sync may start. */
  function Welcomed(s: State, peer: PeerId, response: Response): State
    requires response.BootstrapAccepted? ==> peer in s.provisional
  {
    match response
    case Authenticated => s.(accepted := s.accepted + {peer})
    case BootstrapAccepted =>
      var device := s.provisional[peer];
      s.(provisional := s.provisional - {peer}, allowed := s.allowed + {device.user},
         authenticated := s.authenticated + {peer}, devices := s.devices[peer := device],
         accepted := s.accepted + {peer})
    case _ => s
  }

  lemma WelcomeKeeps(setting: Setting, s: State, trace: Trace, peer: PeerId, response: Response)
    requires Kept(setting, s, trace) && (response.BootstrapAccepted? ==> peer in s.provisional)
    ensures Kept(setting, Welcomed(s, peer, response), trace)
  {
    SameAccounts(setting, s, Welcomed(s, peer, response), trace);
    WelcomeIsAuthorized(setting, s, peer, response);
  }

  lemma WelcomeIsAuthorized(setting: Setting, s: State, peer: PeerId, response: Response)
    requires Authorized(setting, s) && (response.BootstrapAccepted? ==> peer in s.provisional)
    ensures Authorized(setting, Welcomed(s, peer, response))
  {
  }

  /**
   On the joining side, an answer authenticates a new peer only if that peer is the configured target,
   presented a certificate, and was approved.
   */
  lemma OnlyApprovedTargetsAreAdmitted(setting: Setting, s: State, peer: PeerId, response: Response, other: PeerId)
    requires ResponseFault(setting, s, peer, response).None?
    requires other in Welcomed(s, peer, response).authenticated && other !in s.authenticated
    ensures other == peer && response.BootstrapAccepted? && Targets(s, peer) && s.target.value.approved
    ensures peer in s.provisional && Welcomed(s, peer, response).devices[peer] == s.provisional[peer]
  {
  }

  // ------------------------------------------------------------------ disconnection

  /** Nothing about the peer is kept. */
  function Forgotten(s: State, peer: PeerId): State {
    s.(authenticated := s.authenticated - {peer}, devices := s.devices - {peer}, sent := s.sent - {peer},
       accepted := s.accepted - {peer}, started := s.started - {peer}, provisional := s.provisional - {peer},
       challenges := s.challenges - {peer}, proved := s.proved - {peer}, acceptances := s.acceptances - {peer})
  }

  lemma ClosingKeeps(setting: Setting, s: State, trace: Trace, peer: PeerId)
    requires Kept(setting, s, trace)
    ensures Kept(setting, AfterClose(s, peer), trace + [Closed(peer, peer in s.relays)])
  {
    AccountedGrows(setting, s, trace, Closed(peer, peer in s.relays), AfterClose(s, peer));
    if peer !in s.relays {
      ForgettingIsAuthorized(setting, s, peer);
    }
  }

  lemma ForgettingIsAuthorized(setting: Setting, s: State, peer: PeerId)
    requires Authorized(setting, s)
    ensures Authorized(setting, Forgotten(s, peer))
  {
  }

  /** The node holds nothing about the peer. */
  ghost predicate Stranger(s: State, peer: PeerId) {
    && peer !in s.authenticated && peer !in s.devices && peer !in s.sent && peer !in s.accepted && peer !in s.started
    && peer !in s.provisional && peer !in s.challenges && peer !in s.proved && peer !in s.acceptances
  }

  /** The state after the last connection to a peer has closed. */
  function AfterClose(s: State, peer: PeerId): State {
    if peer in s.relays then s else Forgotten(s, peer)
  }

  /**
   After its last connection closes the peer is a stranger, unless it is a relay peer that was not one
   before: a relay peer keeps its authentication and its open challenge, proof and acceptance.
   */
  lemma DisconnectForgetsUnlessRelay(s: State, peer: PeerId)
    ensures Stranger(AfterClose(s, peer), peer) <==> peer !in s.relays || Stranger(s, peer)
  {
  }

  // ------------------------------------------------------------------ live re-authorization

  /** Authenticated peers whose device may not act. */
  function Barred(s: State): set<PeerId> {
    set p | p in s.devices && !MayAct(s.allowed, s.trusted, s.devices[p])
  }

  function Dismissed(s: State, peers: set<PeerId>): State {
    s.(authenticated := s.authenticated - peers, devices := s.devices - peers, sent := s.sent - peers,
       accepted := s.accepted - peers, started := s.started - peers)
  }

  lemma DismissOneMore(s: State, peers: set<PeerId>, peer: PeerId)
    ensures Dismissed(Dismissed(s, peers), {peer}) == Dismissed(s, peers + {peer})
  {
  }

  function Reauthorized(s: State, users: set<Id>, devices: set<Id>): State {
    var s' := s.(allowed := users, trusted := devices);
    Dismissed(s', Barred(s'))
  }

  /**
   The new projection decides who stays: exactly the peers that may act under it. Of the others nothing is
   kept but what belongs to a bootstrap, and whoever stays keeps everything.
   */
  lemma ReauthorizationIsExact(setting: Setting, s: State, users: set<Id>, devices: set<Id>, peer: PeerId)
    requires Authorized(setting, s)
    ensures var s' := Reauthorized(s, users, devices);
            var gone := peer in s.authenticated && !MayAct(users, devices, s.devices[peer]);
            && (peer in s'.authenticated <==> peer in s.authenticated && !gone)
            && (gone ==> peer !in s'.devices && peer !in s'.sent && peer !in s'.accepted && peer !in s'.started)
            && (!gone ==>
                  && Lookup(s'.devices, peer) == Lookup(s.devices, peer) && (peer in s'.sent <==> peer in s.sent)
                  && (peer in s'.accepted <==> peer in s.accepted) && (peer in s'.started <==> peer in s.started))
            && s' == s.(allowed := users, trusted := devices, authenticated := s'.authenticated,
                        devices := s'.devices, sent := s'.sent, accepted := s'.accepted, started := s'.started)
  {
  }

  lemma ReauthorizationKeeps(setting: Setting, s: State, trace: Trace, users: set<Id>, devices: set<Id>)
    requires Kept(setting, s, trace)
    ensures Kept(setting, Reauthorized(s, users, devices), trace)
  {
    SameAccounts(setting, s, Reauthorized(s, users, devices), trace);
    ReauthorizationIsAuthorized(setting, s, users, devices);
  }

  lemma ReauthorizationIsAuthorized(setting: Setting, s: State, users: set<Id>, devices: set<Id>)
    requires Authorized(setting, s)
    ensures Authorized(setting, Reauthorized(s, users, devices))
  {
  }

  /** Dismisses the peers one by one. */
  method DismissEach(s: State, peers: set<PeerId>) returns (s': State)
    ensures s' == Dismissed(s, peers)
  {
    s' := s;
    var todo := peers;
    assert peers - todo == {};
    while todo != {}
      invariant todo <= peers && s' == Dismissed(s, peers - todo)
      decreases |todo|
    {
      var peer :| peer in todo;
      DismissOneMore(s, peers - todo, peer);
      assert peers - (todo - {peer}) == peers - todo + {peer};
      s' := Dismissed(s', {peer});
      todo := todo - {peer};
    }
    assert peers - {} == peers;
  }

  // ------------------------------------------------------------------ small changes

  /** The grants by invitation, if all of them are valid. */
  method CollectGrants(valid: Grant -> bool, grants: seq<Grant>) returns (r: Option<map<Id, Grant>>)
    ensures r.Some? <==> forall g :: g in grants ==> valid(g)
    ensures r.Some? ==> r.value == GrantMap(grants)
  {
    var replacement: map<Id, Grant> := map[];
    for k := 0 to |grants|
      invariant replacement == GrantMap(grants[..k])
      invariant forall j :: 0 <= j < k ==> valid(grants[j])
    {
      if !valid(grants[k]) {
        assert grants[k] in grants;
        return None;
      }
      assert grants[..k + 1][..k] == grants[..k];
      replacement := replacement[grants[k].invitation := grants[k]];
    }
    assert grants[..|grants|] == grants;
    return Some(replacement);
  }

  lemma {:induction false} GrantMapIsSound(setting: Setting, grants: seq<Grant>)
    requires forall g :: g in grants ==> ValidGrant(setting, g)
    ensures SoundGrants(setting, GrantMap(grants))
    decreases |grants|
  {
    if grants != [] {
      var init, last := grants[..|grants| - 1], grants[|grants| - 1];
      GrantMapIsSound(setting, init);
      assert last in grants;
    }
  }

  lemma OneMoreGrantIsSound(setting: Setting, grants: map<Id, Grant>, grant: Grant)
    requires SoundGrants(setting, grants) && ValidGrant(setting, grant)
    ensures SoundGrants(setting, grants[grant.invitation := grant])
    ensures grants[grant.invitation := grant].Keys == grants.Keys + {grant.invitation}
  {
  }

  lemma RegrantKeeps(setting: Setting, s: State, trace: Trace, grants: map<Id, Grant>)
    requires Kept(setting, s, trace) && SoundGrants(setting, grants)
    ensures Kept(setting, s.(grants := grants), trace + [Regranted(grants.Keys)])
  {
    AccountedGrows(setting, s, trace, Regranted(grants.Keys), s.(grants := grants));
  }

  lemma RetargetKeeps(setting: Setting, s: State, trace: Trace, target: Option<Target>)
    requires Kept(setting, s, trace)
    ensures Kept(setting, s.(target := target), trace)
  {
    SameAccounts(setting, s, s.(target := target), trace);
  }

  lemma SendingKeeps(setting: Setting, s: State, trace: Trace, peer: PeerId)
    requires Kept(setting, s, trace)
    ensures Kept(setting, s.(sent := s.sent + {peer}), trace)
  {
    SameAccounts(setting, s, s.(sent := s.sent + {peer}), trace);
  }

  lemma RelayKeeps(setting: Setting, s: State, trace: Trace, relay: PeerId)
    requires Kept(setting, s, trace)
    ensures Kept(setting, s.(relays := s.relays + {relay}), trace + [Relayed(relay)])
  {
    AccountedGrows(setting, s, trace, Relayed(relay), s.(relays := s.relays + {relay}));
  }
}
