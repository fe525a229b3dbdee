/**
 Keeping the network's authorization in step with the community (`refresh_network_authorization`,
 crates/cli/src/main.rs:1125-1167): members may connect, active invitations may be redeemed, and the
 declared home server is trusted.
 */
module Refresh {
  import opened Wrappers
  import opened Bytes
  import opened Protocol
  import opened Ordering
  import opened Closure
  import opened Node
  import opened NodeTheorems
  import opened Devices
  import opened Bootstrap
  import opened Network
  import opened NetworkNodes
  import opened Projection
  import Chat
  import Resolver

  datatype RefreshError =
    | WrongHomeServerIdentity
    | MissingHomeServer
    | AncestryError(cause: NodeError)
    | GrantError(refusal: NetworkError)

  /** The node has not learnt its community yet, or it is this one. */
  predicate OfCommunity(own: Option<Id>, community: Id) {
    own.None? || own.value == community
  }

  // ------------------------------------------------------------------ grants for invitations

  /** The ids are the invitation's ancestry, and the events their rows by id. */
  ghost predicate TracedBy(store: Events, invitation: Id, ids: set<Id>, events: seq<SignedEvent>) {
    && AncestryOf(store, invitation, ids) && |ids| <= MAX_BOOTSTRAP_ANCESTRY_EVENTS
    && (forall i :: 0 <= i < |Ascending(ids)| ==> Ascending(ids)[i] in store)
    && events == EventsOf(store, Ascending(ids))
  }

  /** The grant offers the invitation's key and exactly its ancestry. */
  ghost predicate GrantFor(store: Events, key: Octets, invitation: Id, grant: Grant) {
    && grant.invitation == invitation && grant.key == key
    && exists ids :: TracedBy(store, invitation, ids, grant.ancestry)
  }

  lemma AncestryIsUnique(store: Events, id: Id, a: set<Id>, b: set<Id>)
    requires AncestryOf(store, id, a) && AncestryOf(store, id, b)
    ensures a == b
  {
  }

  /** Ancestors of a known event are known. */
  lemma AncestryIsKnown(store: Events, known: set<Id>, id: Id, ids: set<Id>)
    requires Grounded(store, known) && id in known && AncestryOf(store, id, ids)
    ensures ids <= known
  {
    GroundedHoldsParents(store, known);
    assert Ancestral(store, known);
  }

  lemma TracedEvents(store: Events, id: Id, ids: set<Id>, events: seq<SignedEvent>)
    requires TracedBy(store, id, ids, events)
    ensures 0 < |events| <= MAX_BOOTSTRAP_ANCESTRY_EVENTS && store[id] in events
    ensures forall e :: e in events ==> exists i :: i in ids && i in store && store[i] == e
  {
    var order := Ascending(ids);
    assert id in Elements(order);
    var k :| 0 <= k < |order| && order[k] == id;
    assert events[k] == store[id];
    forall e | e in events
      ensures exists i :: i in ids && i in store && store[i] == e
    {
      var j :| 0 <= j < |events| && events[j] == e;
      assert order[j] in Elements(order);
    }
  }

  /** A grant made for a known invitation is valid exactly when its disclosure fits a frame. */
  lemma GrantIsValid(setting: Setting, node: NodeState, key: Octets, invitation: Id, grant: Grant)
    requires Sound(setting.crypto, node) && OfCommunity(node.community, setting.community) && invitation in node.known
    requires GrantFor(node.store, key, invitation, grant)
    ensures ValidGrant(setting, grant) <==> DisclosureFits(invitation, grant.ancestry)
  {
    var ids :| TracedBy(node.store, invitation, ids, grant.ancestry);
    TracedIsSound(setting.crypto, node, invitation, ids, grant.ancestry);
    ValidIfFits(setting, grant);
  }

  lemma ValidIfFits(setting: Setting, grant: Grant)
    requires 0 < |grant.ancestry| <= MAX_BOOTSTRAP_ANCESTRY_EVENTS
    requires exists e :: e in grant.ancestry && e.id == grant.invitation
    requires forall e :: e in grant.ancestry ==> ValidEvent(setting.crypto, e) && Belongs(e, setting.community)
    ensures ValidGrant(setting, grant) <==> DisclosureFits(grant.invitation, grant.ancestry)
  {
  }

  lemma TracedIsSound(crypto: Crypto, node: NodeState, id: Id, ids: set<Id>, events: seq<SignedEvent>)
    requires Sound(crypto, node) && node.community.Some? && id in node.known && TracedBy(node.store, id, ids, events)
    ensures 0 < |events| <= MAX_BOOTSTRAP_ANCESTRY_EVENTS
    ensures exists e :: e in events && e.id == id
    ensures forall e :: e in events ==> ValidEvent(crypto, e) && Belongs(e, node.community.value)
  {
    TracedEvents(node.store, id, ids, events);
    AncestryIsKnown(node.store, node.known, id, ids);
    forall e | e in events
      ensures ValidEvent(crypto, e) && Belongs(e, node.community.value)
    {
      RowOfKnown(crypto, node, ids, e);
    }
    RowHasItsId(crypto, node, id);
  }

  lemma RowHasItsId(crypto: Crypto, node: NodeState, id: Id)
    requires Sound(crypto, node) && id in node.store
    ensures node.store[id].id == id
  {
  }

  lemma RowOfKnown(crypto: Crypto, node: NodeState, ids: set<Id>, e: SignedEvent)
    requires Sound(crypto, node) && node.community.Some? && ids <= node.known
    requires exists i :: i in ids && i in node.store && node.store[i] == e
    ensures ValidEvent(crypto, e) && Belongs(e, node.community.value)
  {
  }

  /** What a grant for an active invitation has to be. */
  ghost function GrantsFor(store: Events, active: map<Id, Octets>): (Id, Grant) -> bool {
    (i, grant) => i in active && GrantFor(store, active[i], i, grant)
  }

  /** The first `k` ids have their grants, in order. */
  ghost predicate Gathered(right: (Id, Grant) -> bool, ids: seq<Id>, k: nat, grants: seq<Grant>) {
    && k <= |ids| && |grants| == k
    && forall j :: 0 <= j < k ==> grants[j].invitation == ids[j] && right(ids[j], grants[j])
  }

  lemma GatherOneMore(right: (Id, Grant) -> bool, ids: seq<Id>, k: nat, grants: seq<Grant>, grant: Grant)
    requires Gathered(right, ids, k, grants) && k < |ids| && grant.invitation == ids[k] && right(ids[k], grant)
    ensures Gathered(right, ids, k + 1, grants + [grant])
  {
  }

  /** Collects a grant for every active invitation; fails on one whose ancestry is too large. */
  method GatherGrants(core: CoreNode, active: map<Id, Octets>) returns (r: Result<seq<Grant>, NodeError>)
    ensures r.Ok? ==> Gathered(GrantsFor(core.store, active), Ascending(active.Keys), |active|, r.value)
    ensures r.Err? <==> SomeTooLong(core.store, active.Keys)
  {
    var ids := Ascending(active.Keys);
    var grants: seq<Grant> := [];
    AllActive(active, ids);
    for k := 0 to |ids|
      invariant Gathered(GrantsFor(core.store, active), ids, k, grants)
    {
      var ancestry := core.Ancestry(ids[k], MAX_BOOTSTRAP_ANCESTRY_EVENTS);
      if ancestry.Err? {
        return Err(ancestry.error);
      }
      var grant := Grant(ids[k], active[ids[k]], ancestry.value);
      GrantIsFor(core.store, active[ids[k]], ids[k], ancestry.value);
      GatherOneMore(GrantsFor(core.store, active), ids, k, grants, grant);
      grants := grants + [grant];
    }
    GatheredAreShort(core.store, active, ids, grants);
    return Ok(grants);
  }

  /** Every invitation with a grant has a short ancestry. */
  lemma GatheredAreShort(store: Events, active: map<Id, Octets>, ids: seq<Id>, grants: seq<Grant>)
    requires Elements(ids) == active.Keys && Gathered(GrantsFor(store, active), ids, |ids|, grants)
    ensures !SomeTooLong(store, active.Keys)
  {
    forall i | i in active.Keys
      ensures !AncestryExceeds(store, i, MAX_BOOTSTRAP_ANCESTRY_EVENTS)
    {
      assert i in Elements(ids);
      var j :| 0 <= j < |ids| && ids[j] == i;
      GrantedIsShort(store, active[i], i, grants[j]);
    }
  }

  lemma GrantedIsShort(store: Events, key: Octets, invitation: Id, grant: Grant)
    requires GrantFor(store, key, invitation, grant)
    ensures !AncestryExceeds(store, invitation, MAX_BOOTSTRAP_ANCESTRY_EVENTS)
  {
    var ids :| TracedBy(store, invitation, ids, grant.ancestry);
    assert Ancestral(store, ids) && invitation in ids;
  }

  lemma AllActive(active: map<Id, Octets>, ids: seq<Id>)
    requires Elements(ids) == active.Keys
    ensures forall j :: 0 <= j < |ids| ==> ids[j] in active
  {
    assert forall j :: 0 <= j < |ids| ==> ids[j] in Elements(ids);
  }

  lemma GrantIsFor(store: Events, key: Octets, invitation: Id, ancestry: seq<SignedEvent>)
    requires exists ids :: AncestryOf(store, invitation, ids) && |ids| <= MAX_BOOTSTRAP_ANCESTRY_EVENTS
                           && ancestry == EventsOf(store, Ascending(ids))
    ensures GrantFor(store, key, invitation, Grant(invitation, key, ancestry))
  {
    var ids :| AncestryOf(store, invitation, ids) && |ids| <= MAX_BOOTSTRAP_ANCESTRY_EVENTS
               && ancestry == EventsOf(store, Ascending(ids));
    AncestryIsStored(store, invitation, ids);
    GrantByTrace(store, key, invitation, ids, ancestry);
  }

  lemma AncestryIsStored(store: Events, id: Id, ids: set<Id>)
    requires AncestryOf(store, id, ids)
    ensures forall i :: 0 <= i < |Ascending(ids)| ==> Ascending(ids)[i] in store
  {
    assert forall i :: 0 <= i < |Ascending(ids)| ==> Ascending(ids)[i] in Elements(Ascending(ids));
  }

  lemma GrantByTrace(store: Events, key: Octets, invitation: Id, ids: set<Id>, ancestry: seq<SignedEvent>)
    requires TracedBy(store, invitation, ids, ancestry)
    ensures GrantFor(store, key, invitation, Grant(invitation, key, ancestry))
  {
  }

  // ------------------------------------------------------------------ when a refresh succeeds

  /** The ancestry of the invitation is small enough, and so is its disclosure. */
  ghost predicate Disclosable(store: Events, invitation: Id) {
    exists ids, events :: TracedBy(store, invitation, ids, events) && DisclosureFits(invitation, events)
  }

  lemma TooLargeIsNotDisclosable(store: Events, invitation: Id)
    requires AncestryExceeds(store, invitation, MAX_BOOTSTRAP_ANCESTRY_EVENTS)
    ensures !Disclosable(store, invitation)
  {
  }

  /** A grant made for the invitation fits a frame exactly when the invitation is disclosable. */
  lemma GrantFitsIfDisclosable(store: Events, key: Octets, invitation: Id, grant: Grant)
    requires GrantFor(store, key, invitation, grant)
    ensures DisclosureFits(invitation, grant.ancestry) <==> Disclosable(store, invitation)
  {
    var ids :| TracedBy(store, invitation, ids, grant.ancestry);
    if Disclosable(store, invitation) {
      var others, events :| TracedBy(store, invitation, others, events) && DisclosureFits(invitation, events);
      AncestryIsUnique(store, invitation, ids, others);
    }
  }

  /** Every gathered grant is valid exactly when every active invitation is disclosable. */
  lemma GrantsAreValid(
    setting: Setting, node: NodeState, active: map<Id, Octets>, ids: seq<Id>, grants: seq<Grant>)
    requires Sound(setting.crypto, node) && OfCommunity(node.community, setting.community)
    requires active.Keys <= node.known && Elements(ids) == active.Keys
    requires Gathered(GrantsFor(node.store, active), ids, |ids|, grants)
    ensures (forall g :: g in grants ==> ValidGrant(setting, g)) <==> AllDisclosable(node.store, active.Keys)
  {
    forall j | 0 <= j < |ids|
      ensures ValidGrant(setting, grants[j]) <==> Disclosable(node.store, ids[j])
    {
      GrantIsValid(setting, node, active[ids[j]], ids[j], grants[j]);
      GrantFitsIfDisclosable(node.store, active[ids[j]], ids[j], grants[j]);
    }
    PointwiseAlike(ids, grants, g => ValidGrant(setting, g), (i: Id) => Disclosable(node.store, i));
    assert forall i :: i in active.Keys <==> i in ids;
  }

  ghost predicate AllDisclosable(store: Events, ids: set<Id>) {
    forall i :: i in ids ==> Disclosable(store, i)
  }

  lemma PointwiseAlike(ids: seq<Id>, grants: seq<Grant>, valid: Grant -> bool, good: Id -> bool)
    requires |grants| == |ids|
    requires forall j :: 0 <= j < |ids| ==> (valid(grants[j]) <==> good(ids[j]))
    ensures (forall g :: g in grants ==> valid(g)) <==> forall i :: i in ids ==> good(i)
  {
    if forall g :: g in grants ==> valid(g) {
      forall i | i in ids
        ensures good(i)
      {
        var j :| 0 <= j < |ids| && ids[j] == i;
        assert grants[j] in grants;
      }
    }
    if forall i :: i in ids ==> good(i) {
      forall g | g in grants
        ensures valid(g)
      {
        var j :| 0 <= j < |grants| && grants[j] == g;
        assert ids[j] in ids;
      }
    }
  }

  /** There is exactly one grant per active invitation, with its key and its ancestry. */
  ghost predicate Offered(store: Events, active: map<Id, Octets>, grants: map<Id, Grant>) {
    && grants.Keys == active.Keys
    && forall i :: i in active ==> GrantFor(store, active[i], i, grants[i])
  }

  lemma {:induction false} GrantsByInvitation(right: (Id, Grant) -> bool, ids: seq<Id>, k: nat, grants: seq<Grant>)
    requires Gathered(right, ids, k, grants)
    ensures GrantMap(grants).Keys == Elements(ids[..k])
    ensures forall i :: i in GrantMap(grants) ==> right(i, GrantMap(grants)[i])
    decreases k
  {
    if k > 0 {
      var init := grants[..k - 1];
      GrantsByInvitation(right, ids, k - 1, init);
      assert ids[..k] == ids[..k - 1] + [ids[k - 1]];
      assert Elements(ids[..k]) == Elements(ids[..k - 1]) + {ids[k - 1]};
      assert right(ids[k - 1], grants[k - 1]);
    }
  }

  lemma GatheredAreOffered(store: Events, active: map<Id, Octets>, ids: seq<Id>, grants: seq<Grant>)
    requires Elements(ids) == active.Keys && Gathered(GrantsFor(store, active), ids, |ids|, grants)
    ensures Offered(store, active, GrantMap(grants))
  {
    GrantsByInvitation(GrantsFor(store, active), ids, |ids|, grants);
    assert ids[..|ids|] == ids;
    OfferedByEach(store, active, GrantMap(grants));
  }

  lemma OfferedByEach(store: Events, active: map<Id, Octets>, grants: map<Id, Grant>)
    requires grants.Keys == active.Keys && forall i :: i in grants ==> GrantsFor(store, active)(i, grants[i])
    ensures Offered(store, active, grants)
  {
    forall i | i in active
      ensures GrantFor(store, active[i], i, grants[i])
    {
      assert GrantsFor(store, active)(i, grants[i]);
    }
  }

  // ------------------------------------------------------------------ refreshing

  function HomeFault(home: Option<Chat.HomeServerBinding>, isHome: bool, localKey: Octets): Option<RefreshError> {
    if !isHome || (home.Some? && home.value.serverKey == localKey) then None
    else if home.Some? then Some(WrongHomeServerIdentity)
    else Some(MissingHomeServer)
  }

  /** A home server must be the declared one; other nodes need no declaration. */
  lemma HomeFaultIs(home: Option<Chat.HomeServerBinding>, isHome: bool, localKey: Octets)
    ensures HomeFault(home, isHome, localKey) == Some(MissingHomeServer) <==> isHome && home == None
    ensures HomeFault(home, isHome, localKey) == Some(WrongHomeServerIdentity)
            <==> isHome && home.Some? && home.value.serverKey != localKey
    ensures HomeFault(home, isHome, localKey) == None
            <==> isHome ==> home.Some? && home.value.serverKey == localKey
  {
  }

  function TrustedDevices(crypto: Crypto, home: Option<Chat.HomeServerBinding>): set<Id> {
    if home.Some? then {DeviceIdOf(crypto, home.value.serverKey)} else {}
  }

  /** The network node is re-authorized for the snapshot. */
  function Renewed(crypto: Crypto, s: State, explicit: set<Id>, snapshot: Resolver.ChatSnapshot): State {
    Reauthorized(s, explicit + snapshot.state.members, TrustedDevices(crypto, snapshot.state.homeServer))
  }

  /** Some invitation has more than 256 ancestors. */
  ghost predicate SomeTooLong(store: Events, ids: set<Id>) {
    exists i :: i in ids && AncestryExceeds(store, i, MAX_BOOTSTRAP_ANCESTRY_EVENTS)
  }

  /** A successful refresh, and no other, replaces the grants. */
  ghost predicate Logged(before: Trace, after: Trace, r: Result<(), RefreshError>, state: State) {
    after == if r.Ok? then before + [Regranted(state.grants.Keys)] else before
  }

  /** What a refresh does, given the snapshot of what is known. */
  ghost predicate Refreshed(
    crypto: Crypto, store: Events, snapshot: Resolver.ChatSnapshot, explicit: set<Id>, isHome: bool, localKey: Octets,
    before: State, after: State, r: Result<(), RefreshError>)
  {
    && (r.Ok? <==> HomeFault(snapshot.state.homeServer, isHome, localKey).None?
                   && AllDisclosable(store, snapshot.activeInvitations.Keys))
    && (r.Ok? ==> after == Renewed(crypto, before, explicit, snapshot).(grants := after.grants)
                  && Offered(store, snapshot.activeInvitations, after.grants))
    && (HomeFault(snapshot.state.homeServer, isHome, localKey).Some? ==>
          r == Err(HomeFault(snapshot.state.homeServer, isHome, localKey).value))
    && (r.Err? ==> after == if r.error.GrantError? then Renewed(crypto, before, explicit, snapshot) else before)
    && (HomeFault(snapshot.state.homeServer, isHome, localKey).None? ==>
          (r.Err? && r.error.AncestryError? <==> SomeTooLong(store, snapshot.activeInvitations.Keys)))
    && (r.Err? && r.error.GrantError? <==>
          && HomeFault(snapshot.state.homeServer, isHome, localKey).None?
          && !SomeTooLong(store, snapshot.activeInvitations.Keys)
          && !AllDisclosable(store, snapshot.activeInvitations.Keys))
  }

  /**
   `refresh_network_authorization`: succeeds exactly when this is the declared home server, if it acts
   as one, and every active invitation is disclosable; then explicit users and members are allowed and
   the grants are exactly the active invitations.
   */
  method RefreshAuthorization(
    profile: Chat.Profile, resolution: Resolver.ChatResolution, core: CoreNode, network: NetworkNode,
    explicit: set<Id>, isHome: bool, localKey: Octets)
    returns (r: Result<(), RefreshError>)
    requires network.Valid() && Sound(profile.crypto, core.View()) && network.setting.crypto == profile.crypto
    requires OfCommunity(core.community, network.setting.community) && ResolvedFrom(profile, core.View(), resolution)
    modifies network
    ensures network.Valid() && Logged(old(network.trace), network.trace, r, network.state)
    ensures Refreshed(profile.crypto, core.store, resolution.snapshot, explicit, isHome, localKey,
                      old(network.state), network.state, r)
  {
    ActiveAreKnown(profile, core.View(), resolution);
    r := RefreshFor(profile.crypto, core, network, resolution.snapshot, explicit, isHome, localKey);
  }

  method RefreshFor(
    crypto: Crypto, core: CoreNode, network: NetworkNode, snapshot: Resolver.ChatSnapshot,
    explicit: set<Id>, isHome: bool, localKey: Octets)
    returns (r: Result<(), RefreshError>)
    requires network.Valid() && crypto == network.setting.crypto && Sound(crypto, core.View())
    requires OfCommunity(core.community, network.setting.community) && snapshot.activeInvitations.Keys <= core.known
    modifies network
    ensures network.Valid() && Logged(old(network.trace), network.trace, r, network.state)
    ensures Refreshed(crypto, core.store, snapshot, explicit, isHome, localKey, old(network.state), network.state, r)
  {
    var fault := HomeFault(snapshot.state.homeServer, isHome, localKey);
    if fault.Some? {
      NothingRefreshed(crypto, core.store, snapshot, explicit, isHome, localKey, network.state, fault.value);
      return Err(fault.value);
    }
    r := RefreshAllowed(crypto, core, network, snapshot, explicit, isHome, localKey);
  }

  method RefreshAllowed(
    crypto: Crypto, core: CoreNode, network: NetworkNode, snapshot: Resolver.ChatSnapshot,
    explicit: set<Id>, ghost isHome: bool, ghost localKey: Octets)
    returns (r: Result<(), RefreshError>)
    requires network.Valid() && crypto == network.setting.crypto && Sound(crypto, core.View())
    requires OfCommunity(core.community, network.setting.community) && snapshot.activeInvitations.Keys <= core.known
    requires HomeFault(snapshot.state.homeServer, isHome, localKey).None?
    modifies network
    ensures network.Valid() && Logged(old(network.trace), network.trace, r, network.state)
    ensures Refreshed(crypto, core.store, snapshot, explicit, isHome, localKey, old(network.state), network.state, r)
  {
    var grants := PrepareGrants(network.setting, core, snapshot.activeInvitations);
    if grants.Err? {
      var error := AncestryError(grants.error);
      NothingRefreshed(crypto, core.store, snapshot, explicit, isHome, localKey, network.state, error);
      return Err(error);
    }
    r := InstallFor(crypto, core.store, network, snapshot, explicit, isHome, localKey, grants.value);
  }

  /** The grants are those of the active invitations, and valid exactly when all of these are disclosable. */
  ghost predicate Prepared(setting: Setting, store: Events, active: map<Id, Octets>, grants: seq<Grant>) {
    && ((forall g :: g in grants ==> ValidGrant(setting, g)) <==> AllDisclosable(store, active.Keys))
    && Offered(store, active, GrantMap(grants))
  }

  method PrepareGrants(setting: Setting, core: CoreNode, active: map<Id, Octets>)
    returns (r: Result<seq<Grant>, NodeError>)
    requires Sound(setting.crypto, core.View()) && OfCommunity(core.community, setting.community)
    requires active.Keys <= core.known
    ensures r.Ok? ==> Prepared(setting, core.store, active, r.value)
    ensures r.Err? <==> SomeTooLong(core.store, active.Keys)
    ensures r.Err? ==> !AllDisclosable(core.store, active.Keys)
  {
    r := GatherGrants(core, active);
    if r.Ok? {
      GatheredSuffice(setting, core.View(), active, r.value);
    } else {
      Untraceable(core.store, active.Keys);
    }
  }

  method InstallFor(
    crypto: Crypto, ghost store: Events, network: NetworkNode, snapshot: Resolver.ChatSnapshot,
    explicit: set<Id>, ghost isHome: bool, ghost localKey: Octets, grants: seq<Grant>)
    returns (r: Result<(), RefreshError>)
    requires network.Valid() && crypto == network.setting.crypto
    requires HomeFault(snapshot.state.homeServer, isHome, localKey).None?
    requires Prepared(network.setting, store, snapshot.activeInvitations, grants)
    requires !SomeTooLong(store, snapshot.activeInvitations.Keys)
    modifies network
    ensures network.Valid() && Logged(old(network.trace), network.trace, r, network.state)
    ensures Refreshed(crypto, store, snapshot, explicit, isHome, localKey, old(network.state), network.state, r)
  {
    ghost var before := network.state;
    r := Install(network, explicit + snapshot.state.members, TrustedDevices(crypto, snapshot.state.homeServer), grants);
    RefreshedByInstall(crypto, store, snapshot, explicit, isHome, localKey, before, network.state, r, GrantMap(grants));
  }

  lemma GatheredSuffice(setting: Setting, node: NodeState, active: map<Id, Octets>, grants: seq<Grant>)
    requires Sound(setting.crypto, node) && OfCommunity(node.community, setting.community) && active.Keys <= node.known
    requires Gathered(GrantsFor(node.store, active), Ascending(active.Keys), |active|, grants)
    ensures Prepared(setting, node.store, active, grants)
  {
    GrantsAreValid(setting, node, active, Ascending(active.Keys), grants);
    GatheredAreOffered(node.store, active, Ascending(active.Keys), grants);
  }

  lemma Untraceable(store: Events, ids: set<Id>)
    requires SomeTooLong(store, ids)
    ensures !AllDisclosable(store, ids)
  {
    var i: Id :| i in ids && AncestryExceeds(store, i, MAX_BOOTSTRAP_ANCESTRY_EVENTS);
    TooLargeIsNotDisclosable(store, i);
  }

  lemma NothingRefreshed(
    crypto: Crypto, store: Events, snapshot: Resolver.ChatSnapshot, explicit: set<Id>, isHome: bool, localKey: Octets,
    state: State, error: RefreshError)
    requires var fault := HomeFault(snapshot.state.homeServer, isHome, localKey);
             fault == Some(error)
             || (fault.None? && error.AncestryError? && SomeTooLong(store, snapshot.activeInvitations.Keys)
                 && !AllDisclosable(store, snapshot.activeInvitations.Keys))
    ensures Refreshed(crypto, store, snapshot, explicit, isHome, localKey, state, state, Err(error))
  {
  }

  lemma RefreshedByInstall(
    crypto: Crypto, store: Events, snapshot: Resolver.ChatSnapshot, explicit: set<Id>, isHome: bool, localKey: Octets,
    before: State, after: State, r: Result<(), RefreshError>, grants: map<Id, Grant>)
    requires HomeFault(snapshot.state.homeServer, isHome, localKey).None?
    requires r.Ok? <==> AllDisclosable(store, snapshot.activeInvitations.Keys)
    requires Offered(store, snapshot.activeInvitations, grants)
    requires !SomeTooLong(store, snapshot.activeInvitations.Keys)
    requires var renewed := Renewed(crypto, before, explicit, snapshot);
             after == if r.Ok? then renewed.(grants := grants) else renewed
    requires r.Err? ==> r.error.GrantError?
    ensures Refreshed(crypto, store, snapshot, explicit, isHome, localKey, before, after, r)
  {
  }

  /** Installs the authorization, then the grants if all of them are valid. */
  method Install(network: NetworkNode, users: set<Id>, devices: set<Id>, grants: seq<Grant>)
    returns (r: Result<(), RefreshError>)
    requires network.Valid()
    modifies network
    ensures network.Valid() && Logged(old(network.trace), network.trace, r, network.state)
    ensures r.Ok? <==> forall g :: g in grants ==> ValidGrant(network.setting, g)
    ensures r.Err? ==> r.error.GrantError?
    ensures network.state ==
              var renewed := Reauthorized(old(network.state), users, devices);
              if r.Ok? then renewed.(grants := GrantMap(grants)) else renewed
  {
    network.ReplaceAuthorization(users, devices);
    var installed := network.ReplaceGrants(grants);
    return if installed.Err? then Err(GrantError(installed.error)) else Ok(());
  }
}
