/**
 The decision on a surfaced acceptance (crates/cli/src/main.rs:1076-1106): the caller resolves what it
 knows together with the acceptance, takes it in if it redeems its invitation, answers the peer, and
 refreshes the network's authorization.
 */
module Decision {
  import opened Wrappers
  import opened Protocol
  import opened Ordering
  import opened Closure
  import opened Node
  import opened NodeTheorems
  import opened ByteCount
  import opened Devices
  import opened Bootstrap
  import opened Network
  import opened NetworkNodes
  import opened Projection
  import opened Refresh
  import Archives
  import Chat
  import Governance
  import Resolver
  import ResolveRounds
  import ResolverTheorems

  // ------------------------------------------------------------------ what is resolved

  /** Everything the node knows, and the acceptance. */
  ghost function Considered(node: NodeState, acceptance: SignedEvent): Resolver.Candidates {
    Only(node.store, node.known)[acceptance.id := acceptance]
  }

  /** The acceptance does not collide with a stored row. */
  predicate Compatible(node: NodeState, acceptance: SignedEvent) {
    acceptance.id in node.store ==> node.store[acceptance.id] == acceptance
  }

  lemma ConsideredIsIndexed(crypto: Crypto, node: NodeState, acceptance: SignedEvent)
    requires Sound(crypto, node) && Compatible(node, acceptance)
    ensures var list := Archives.Export(node) + [acceptance];
            ResolveRounds.NoCollisions(list) && ResolveRounds.Index(list) == Considered(node, acceptance)
    ensures Indexed(Considered(node, acceptance))
  {
    Archives.ExportIsKnown(crypto, node);
    RowsAreListed(node.store, node.known, Archives.Export(node));
    var list, s := Archives.Export(node) + [acceptance], Considered(node, acceptance);
    ListingWithOne(Only(node.store, node.known), Archives.Export(node), acceptance);
    IndexOfListing(list, s);
  }

  lemma ListingWithOne(rows: Events, listed: seq<SignedEvent>, one: SignedEvent)
    requires Indexed(rows) && (forall e :: e in listed <==> e.id in rows && rows[e.id] == e)
    requires one.id in rows ==> rows[one.id] == one
    ensures var s := rows[one.id := one];
            && Indexed(s) && ResolveRounds.NoCollisions(listed + [one])
            && forall e :: e in listed + [one] <==> e.id in s && s[e.id] == e
  {
  }

  /** The caller approves: the acceptance is accepted, its author a member, and the invitation used. */
  predicate Approved(r: Resolver.ChatResolution, acceptance: SignedEvent, user: Id, invitation: Id) {
    && acceptance.id in r.snapshot.eventIds
    && user in r.snapshot.state.members
    && invitation !in r.snapshot.activeInvitations
  }

  lemma ApprovedIs(
    profile: Chat.Profile, s: Resolver.Candidates, r: Resolver.ChatResolution, acceptance: SignedEvent, user: Id,
    invitation: Id)
    requires Resolver.Resolves(profile, s, r)
    ensures Approved(r, acceptance, user, invitation) <==>
              && acceptance.id in r.acceptedInOrder && user in r.snapshot.state.members
              && invitation !in r.snapshot.activeInvitations
  {
  }

  // ------------------------------------------------------------------ an approval is taken in

  /** The parents of an accepted acceptance are known. */
  lemma ParentsAreKnown(
    profile: Chat.Profile, node: NodeState, acceptance: SignedEvent, r: Resolver.ChatResolution)
    requires Indexed(Considered(node, acceptance)) && Resolver.Resolves(profile, Considered(node, acceptance), r)
    requires acceptance.id in r.snapshot.eventIds
    ensures Parents(acceptance) <= node.known
  {
    var s, order := Considered(node, acceptance), r.acceptedInOrder;
    var k: nat :| k < |order| && order[k] == acceptance.id;
    forall p | p in Parents(acceptance)
      ensures p in node.known
    {
      ResolverTheorems.AcceptedOrderIsCausal(profile, s, order, k, p);
      EarlierIsAnother(profile, s, order, k, p);
    }
  }

  lemma EarlierIsAnother(profile: Chat.Profile, s: Resolver.Candidates, order: seq<Id>, k: nat, p: Id)
    requires Resolver.IsResolution(profile, s, order) && k < |order| && p in order[..k]
    ensures p != order[k] && p in s
  {
    Resolver.AcceptedAreCandidates(profile, s, order);
    var j: nat :| j < k && order[j] == p;
  }

  lemma AcceptanceIsAbsorbed(known: set<Id>, acceptance: SignedEvent)
    requires Parents(acceptance) <= known
    ensures BatchOf([acceptance]) == map[acceptance.id := acceptance]
    ensures Absorbed(known, BatchOf([acceptance])) == {acceptance.id}
  {
    assert [acceptance][..0] == [];
    assert BatchOf([acceptance]) == BatchOf([acceptance][..0])[acceptance.id := acceptance];
    AbsorbedIsClosed(known, BatchOf([acceptance]));
    assert acceptance.id in Ready(known, BatchOf([acceptance]));
  }

  /** Ingesting an approved acceptance makes it known, and nothing else. */
  lemma ApprovalIsTakenIn(crypto: Crypto, node: NodeState, acceptance: SignedEvent)
    requires Sound(crypto, node) && node.community.Some? && Compatible(node, acceptance)
    requires ValidEvent(crypto, acceptance) && Belongs(acceptance, node.community.value)
    requires Parents(acceptance) <= node.known
    ensures IngestFault(crypto, node.community, [acceptance]).None?
    ensures Sound(crypto, Ingested(node, [acceptance]))
    ensures Ingested(node, [acceptance]).known == node.known + {acceptance.id}
    ensures Ingested(node, [acceptance]).community == node.community
    ensures Only(Ingested(node, [acceptance]).store, Ingested(node, [acceptance]).known) == Considered(node, acceptance)
  {
    AcceptanceIsAbsorbed(node.known, acceptance);
    IngestKeepsSound(crypto, node, [acceptance]);
    CommunityIsLearned(crypto, node, [acceptance]);
    GroundedHoldsParents(node.store, node.known);
    OneMoreRow(node.store, node.known, acceptance);
  }

  lemma OneMoreRow(store: Events, known: set<Id>, e: SignedEvent)
    requires known <= store.Keys && (e.id in store ==> store[e.id] == e)
    ensures Only(Stored(store, map[e.id := e], {e.id}), known + {e.id}) == Only(store, known)[e.id := e]
  {
  }

  /** So the node's next resolution is the one the approval was based on. */
  lemma ApprovalStands(
    profile: Chat.Profile, node: NodeState, acceptance: SignedEvent, r: Resolver.ChatResolution,
    next: Resolver.ChatResolution)
    requires Sound(profile.crypto, node) && node.community.Some? && Compatible(node, acceptance)
    requires ValidEvent(profile.crypto, acceptance) && Belongs(acceptance, node.community.value)
    requires Resolver.Resolves(profile, Considered(node, acceptance), r) && acceptance.id in r.snapshot.eventIds
    requires ResolvedFrom(profile, Ingested(node, [acceptance]), next)
    ensures next == r
  {
    ConsideredIsIndexed(profile.crypto, node, acceptance);
    ParentsAreKnown(profile, node, acceptance, r);
    ApprovalIsTakenIn(profile.crypto, node, acceptance);
    KnownAreRows(profile.crypto, Ingested(node, [acceptance]));
    ResolverTheorems.ResolvesIsUnique(profile, Considered(node, acceptance), next, r);
  }

  // ------------------------------------------------------------------ the decision step

  /** Resolves what is known together with the acceptance, and judges it. */
  method Judge(profile: Chat.Profile, core: CoreNode, acceptance: SignedEvent, user: Id, invitation: Id)
    returns (approved: bool, resolution: Resolver.ChatResolution)
    requires Sound(profile.crypto, core.View()) && Compatible(core.View(), acceptance)
    requires ValidEvent(profile.crypto, acceptance)
    ensures Resolver.Resolves(profile, Considered(core.View(), acceptance), resolution)
    ensures approved == Approved(resolution, acceptance, user, invitation)
  {
    ConsideredIsIndexed(profile.crypto, core.View(), acceptance);
    KnownHasNoCollisions(profile.crypto, core.View());
    var r := ResolveRounds.Resolve(profile, Archives.Export(core.View()) + [acceptance]);
    resolution := r.value;
    approved := Approved(resolution, acceptance, user, invitation);
  }

  /**
   Acts on the judgement: an approved acceptance is taken into the node, and the peer is answered.
   The node then knows what was considered.
   */
  method Act(
    profile: Chat.Profile, core: CoreNode, network: NetworkNode, peer: PeerId, acceptance: SignedEvent,
    ghost resolution: Resolver.ChatResolution, user: Id, invitation: Id, approved: bool, channelOpen: bool)
    returns (r: Result<bool, NetworkError>)
    requires network.Valid() && Sound(profile.crypto, core.View()) && core.community.Some?
    requires Compatible(core.View(), acceptance) && ValidEvent(profile.crypto, acceptance)
    requires Belongs(acceptance, core.community.value) && peer in network.state.acceptances
    requires Resolver.Resolves(profile, Considered(core.View(), acceptance), resolution)
    requires approved == Approved(resolution, acceptance, user, invitation)
    modifies core, network
    ensures network.Valid() && Sound(profile.crypto, core.View())
    ensures core.View() == if approved then Ingested(old(core.View()), [acceptance]) else old(core.View())
    ensures network.state.authenticated == Decided(old(network.state), peer, approved).authenticated
    ensures network.state.devices == Decided(old(network.state), peer, approved).devices
    ensures network.trace == old(network.trace) + [Settled(peer, old(network.state).acceptances[peer], approved)]
    ensures r.Ok? <==> channelOpen
  {
    if approved {
      TakeIn(profile, core, acceptance, resolution);
    }
    r := network.ResolveAcceptance(peer, approved, channelOpen);
  }

  method TakeIn(
    profile: Chat.Profile, core: CoreNode, acceptance: SignedEvent, ghost resolution: Resolver.ChatResolution)
    requires Sound(profile.crypto, core.View()) && core.community.Some? && Compatible(core.View(), acceptance)
    requires ValidEvent(profile.crypto, acceptance) && Belongs(acceptance, core.community.value)
    requires Resolver.Resolves(profile, Considered(core.View(), acceptance), resolution)
    requires acceptance.id in resolution.snapshot.eventIds
    modifies core
    ensures core.View() == Ingested(old(core.View()), [acceptance]) && Sound(profile.crypto, core.View())
  {
    ConsideredIsIndexed(profile.crypto, core.View(), acceptance);
    ParentsAreKnown(profile, core.View(), acceptance, resolution);
    ApprovalIsTakenIn(profile.crypto, core.View(), acceptance);
    var report := core.Ingest(profile.crypto, [acceptance]);
  }

  // ------------------------------------------------------------------ after the next refresh

  /**
   A refresh keeps an authenticated peer exactly when its user is listed explicitly or a member by then,
   or its device is the home server's.
   */
  lemma RefreshDismissesExactly(
    setting: Setting, s: State, explicit: set<Id>, snapshot: Resolver.ChatSnapshot, peer: PeerId)
    requires Authorized(setting, s) && peer in s.authenticated
    ensures peer in Renewed(setting.crypto, s, explicit, snapshot).authenticated <==>
              || s.devices[peer].user in explicit || s.devices[peer].user in snapshot.state.members
              || (snapshot.state.homeServer.Some?
                  && s.devices[peer].device == DeviceIdOf(setting.crypto, snapshot.state.homeServer.value.serverKey))
  {
    ReauthorizationIsExact(
      setting, s, explicit + snapshot.state.members, TrustedDevices(setting.crypto, snapshot.state.homeServer), peer);
  }

  /** The refresh right after an approval keeps the approved peer. */
  lemma ApprovedOutlivesItsRefresh(
    setting: Setting, profile: Chat.Profile, node: NodeState, acceptance: SignedEvent, r: Resolver.ChatResolution,
    next: Resolver.ChatResolution, s: State, peer: PeerId, invitation: Id, explicit: set<Id>)
    requires Sound(profile.crypto, node) && node.community.Some? && Compatible(node, acceptance)
    requires ValidEvent(profile.crypto, acceptance) && Belongs(acceptance, node.community.value)
    requires Resolver.Resolves(profile, Considered(node, acceptance), r)
    requires Authorized(setting, s) && peer in s.authenticated
    requires Approved(r, acceptance, s.devices[peer].user, invitation)
    requires ResolvedFrom(profile, Ingested(node, [acceptance]), next)
    ensures peer in Renewed(setting.crypto, s, explicit, next.snapshot).authenticated
  {
    ApprovalStands(profile, node, acceptance, r, next);
    RefreshDismissesExactly(setting, s, explicit, next.snapshot, peer);
  }

  /** Whoever is a member at a refresh was the founder, or brought in by an accepted redemption and not removed. */
  lemma MembersAreBroughtIn(profile: Chat.Profile, s: Resolver.Candidates, r: Resolver.ChatResolution, user: Id)
    requires Resolver.Resolves(profile, s, r)
    ensures user in r.snapshot.state.members <==>
              exists i: nat :: Governance.BroughtInAt(profile, Resolver.Log(s, r.acceptedInOrder), user, i)
  {
    ResolverTheorems.AcceptedLogIsAuthorized(profile, s, r.acceptedInOrder);
    Governance.MembershipIsTheLog(profile, Resolver.Log(s, r.acceptedInOrder), user);
  }

  /** Of all acceptances of one invitation, at most one is accepted. */
  lemma OneRedemptionStands(
    profile: Chat.Profile, s: Resolver.Candidates, r: Resolver.ChatResolution, invitation: Id, x: Id, y: Id)
    requires Indexed(s) && Resolver.Resolves(profile, s, r)
    requires x in r.snapshot.eventIds && y in r.snapshot.eventIds && x in s && y in s
    requires Governance.Redeems(profile, s[x], invitation) && Governance.Redeems(profile, s[y], invitation)
    ensures x == y
  {
    var order := r.acceptedInOrder;
    var log := Resolver.Log(s, order);
    var i: nat :| i < |order| && order[i] == x;
    var j: nat :| j < |order| && order[j] == y;
    ResolverTheorems.AcceptedLogIsAuthorized(profile, s, order);
    assert log[i] == s[x] && log[j] == s[y];
    Governance.RedemptionIsSingleUse(profile, log, i, invitation);
  }
}
