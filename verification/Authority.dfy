/**
 Who may do what: for each kind of payload the exact condition, in the fields of the state, under which an
 event is accepted, and for each reason of rejection the exact case in which it is given.
 */
module Authority {
  import opened Wrappers
  import opened Bytes
  import opened Protocol
  import opened Ordering
  import opened Chat
  import opened Causality
  import opened DecisionOrder
  import opened Resolver
  import opened ResolverTheorems
  import Governance
  import SignedBytes

  // ------------------------------------------------------------------ what a payload needs

  /** Only the owner may do this. */
  predicate ForOwner(payload: ChatPayload) {
    payload.AdministratorGrant? || payload.AdministratorRevoke? || payload.OwnershipTransfer? || payload.HomeServerSet?
  }

  /** Only administrators may do this. */
  predicate ForAdministrators(payload: ChatPayload) {
    payload.ChannelCreate? || payload.MemberInvite? || payload.MemberRemove?
  }

  /** The author has the role its payload asks for. */
  predicate HasRole(state: State, payload: ChatPayload, author: Id) {
    && (ForOwner(payload) ==> state.owner == Some(author))
    && (ForAdministrators(payload) ==> author in state.administrators)
    && (payload.MessageCreate? ==> author in state.members)
  }

  /** What the payload is about is there. The owner is neither removed nor revoked. */
  predicate HasTarget(state: State, payload: ChatPayload) {
    && (payload.MemberRemove? ==> payload.removed in state.members && state.owner != Some(payload.removed))
    && (payload.MessageCreate? ==> payload.target in state.channels)
    && (payload.AdministratorGrant? ==>
          payload.granted in state.members && payload.granted !in state.administrators)
    && (payload.AdministratorRevoke? ==>
          payload.revoked in state.administrators && state.owner != Some(payload.revoked))
    && (payload.OwnershipTransfer? ==> payload.newOwner in state.members)
  }

  /** An endpoint is between 1 and 512 printable ASCII bytes other than the space. */
  predicate PlainEndpoint(endpoint: Octets) {
    1 <= |endpoint| <= 512 && forall b :: b in endpoint ==> 0x20 < b < 0x7f
  }

  /** A 32-byte key with one to eight endpoints, all different. */
  predicate SoundDeclaration(serverKey: Octets, endpoints: seq<Octets>) {
    && |serverKey| == 32 && 1 <= |endpoints| <= 8
    && (forall e :: e in endpoints ==> PlainEndpoint(e))
    && forall i, j :: 0 <= i < |endpoints| && 0 <= j < |endpoints| && endpoints[i] == endpoints[j] ==> i == j
  }

  /** The invitation stands open, and its key signed for this community and author. */
  predicate Entitles(crypto: Crypto, state: State, invitation: Id, author: Id, signature: Octets) {
    && invitation in state.invitations && invitation !in state.redeemed && |signature| == 64
    && state.community.Some?
    && crypto.verify(state.invitations[invitation],
                     SignedBytes.AcceptanceBytes(state.community.value, invitation, author), signature)
  }

  /** The payload itself is in order. */
  predicate InOrder(crypto: Crypto, state: State, payload: ChatPayload, author: Id) {
    && (payload.MemberInvite? ==> |payload.capabilityKey| == 32)
    && (payload.MemberAccept? ==>
          Entitles(crypto, state, payload.invitation, author, payload.capabilitySignature))
    && (payload.HomeServerSet? ==> SoundDeclaration(payload.serverKey, payload.endpoints))
  }

  /** The event founds the community, or carries it. */
  predicate InCommunity(state: State, event: SignedEvent, payload: ChatPayload) {
    if payload.CommunityCreate? then state.community == None else event.content.community == state.community
  }

  // ------------------------------------------------------------------ the exact condition

  lemma SoundIsGood(serverKey: Octets, endpoints: seq<Octets>)
    ensures GoodHomeServer(serverKey, endpoints) <==> SoundDeclaration(serverKey, endpoints)
  {
    forall i | 0 <= i < |endpoints|
      ensures GoodEndpoint(endpoints[i]) <==> PlainEndpoint(endpoints[i])
    {
      PlainIsGood(endpoints[i]);
    }
    if SoundDeclaration(serverKey, endpoints) {
      assert forall i :: 0 <= i < |endpoints| ==> endpoints[i] in endpoints && GoodEndpoint(endpoints[i]);
    }
  }

  lemma PlainIsGood(endpoint: Octets)
    ensures GoodEndpoint(endpoint) <==> PlainEndpoint(endpoint)
  {
    if PlainEndpoint(endpoint) {
      assert forall i :: 0 <= i < |endpoint| ==> endpoint[i] in endpoint;
    }
  }

  /** Of the community, by an author with the role, with its target there and in order itself. */
  predicate MayStand(crypto: Crypto, state: State, event: SignedEvent, payload: ChatPayload, author: Id) {
    && InCommunity(state, event, payload) && HasRole(state, payload, author)
    && HasTarget(state, payload) && InOrder(crypto, state, payload, author)
  }

  lemma NoFaultIs(
    profile: Profile, state: State, event: SignedEvent, payload: ChatPayload, author: Id, accepted: set<Id>)
    requires Governance.Governed(state) && Parents(event) <= accepted
    ensures ContextFault(profile, state, event, payload, author, accepted).None?
            <==> MayStand(profile.crypto, state, event, payload, author)
  {
    if payload.HomeServerSet? {
      SoundIsGood(payload.serverKey, payload.endpoints);
    }
  }

  lemma ParentsIn(log: seq<SignedEvent>, event: SignedEvent)
    ensures Parents(event) <= IdsOf(log) <==>
              forall p :: p in event.content.parents ==> exists e :: e in log && e.id == p
  {
    assert forall p :: p in event.content.parents <==> p in Parents(event);
  }

  lemma AdmissibleInState(profile: Profile, log: seq<SignedEvent>, event: SignedEvent)
    requires Chat.Authorized(profile, log)
    ensures Admissible(profile, log, event) <==>
              && Decode(profile, event).Some? && Parents(event) <= IdsOf(log)
              && MayStand(profile.crypto, StateAfter(profile, log), event, Decode(profile, event).value,
                          profile.crypto.hash(event.publicKey))
  {
    Governance.RolesAreNested(profile, log);
    if Decode(profile, event).Some? && Parents(event) <= IdsOf(log) {
      NoFaultIs(profile, StateAfter(profile, log), event, Decode(profile, event).value,
                profile.crypto.hash(event.publicKey), IdsOf(log));
    }
  }

  /**
   An event may follow an authorized log exactly when it decodes, its parents are in the log, and in the
   state the log leads to it is of the community, its author has the role, and its target is there.
   */
  lemma AdmissibleIs(profile: Profile, log: seq<SignedEvent>, event: SignedEvent)
    requires Chat.Authorized(profile, log)
    ensures Admissible(profile, log, event) <==>
              && Decode(profile, event).Some?
              && (forall p :: p in event.content.parents ==> exists e :: e in log && e.id == p)
              && MayStand(profile.crypto, StateAfter(profile, log), event, Decode(profile, event).value,
                          profile.crypto.hash(event.publicKey))
  {
    ParentsIn(log, event);
    AdmissibleInState(profile, log, event);
  }

  // ------------------------------------------------------------------ the reason given

  /** The case in which a reason is given to an event whose parents are accepted. */
  predicate Objects(
    crypto: Crypto, state: State, event: SignedEvent, payload: ChatPayload, author: Id, reason: RejectionReason)
  {
    match reason
    case WrongCommunity => !InCommunity(state, event, payload)
    case NotOwner =>
      InCommunity(state, event, payload) && ForOwner(payload) && state.owner != Some(author)
    case NotAdministrator =>
      && InCommunity(state, event, payload)
      && (|| (ForAdministrators(payload) && author !in state.administrators)
          || (payload.AdministratorRevoke? && state.owner == Some(author) && payload.revoked !in state.administrators))
    case NotMember =>
      InCommunity(state, event, payload) && payload.MessageCreate? && author !in state.members
    case UnknownChannel =>
      && InCommunity(state, event, payload) && HasRole(state, payload, author)
      && payload.MessageCreate? && payload.target !in state.channels
    case CannotRemoveOwner =>
      && InCommunity(state, event, payload) && HasRole(state, payload, author)
      && (|| (payload.MemberRemove? && state.owner == Some(payload.removed))
          || (payload.AdministratorRevoke? && state.owner == Some(payload.revoked)))
    case MemberNotActive =>
      && InCommunity(state, event, payload) && HasRole(state, payload, author)
      && (|| (payload.MemberRemove? && payload.removed !in state.members)
          || (payload.AdministratorGrant? && payload.granted !in state.members)
          || (payload.OwnershipTransfer? && payload.newOwner !in state.members))
    case AlreadyAdministrator =>
      && InCommunity(state, event, payload) && HasRole(state, payload, author)
      && payload.AdministratorGrant? && payload.granted in state.administrators
    case InvalidInvitation =>
      && InCommunity(state, event, payload) && HasRole(state, payload, author)
      && (payload.MemberInvite? || payload.MemberAccept?) && !InOrder(crypto, state, payload, author)
    case InvalidHomeServer =>
      && InCommunity(state, event, payload) && HasRole(state, payload, author)
      && payload.HomeServerSet? && !InOrder(crypto, state, payload, author)
    case _ => false
  }

  lemma OwnerFaultIs(
    profile: Profile, state: State, event: SignedEvent, payload: ChatPayload, author: Id, accepted: set<Id>,
    reason: RejectionReason)
    requires Governance.Governed(state) && Parents(event) <= accepted && ForOwner(payload)
    ensures ContextFault(profile, state, event, payload, author, accepted) == Some(reason) <==>
              Objects(profile.crypto, state, event, payload, author, reason)
  {
    if payload.HomeServerSet? {
      SoundIsGood(payload.serverKey, payload.endpoints);
    }
  }

  lemma OtherFaultIs(
    profile: Profile, state: State, event: SignedEvent, payload: ChatPayload, author: Id, accepted: set<Id>,
    reason: RejectionReason)
    requires Governance.Governed(state) && Parents(event) <= accepted && !ForOwner(payload)
    ensures ContextFault(profile, state, event, payload, author, accepted) == Some(reason) <==>
              Objects(profile.crypto, state, event, payload, author, reason)
  {
  }

  /** Owners are administrators and administrators members, so at most one reason is in place. */
  lemma FaultIs(
    profile: Profile, state: State, event: SignedEvent, payload: ChatPayload, author: Id, accepted: set<Id>,
    reason: RejectionReason)
    requires Governance.Governed(state) && Parents(event) <= accepted
    ensures ContextFault(profile, state, event, payload, author, accepted) == Some(reason) <==>
              Objects(profile.crypto, state, event, payload, author, reason)
  {
    if ForOwner(payload) {
      OwnerFaultIs(profile, state, event, payload, author, accepted, reason);
    } else {
      OtherFaultIs(profile, state, event, payload, author, accepted, reason);
    }
  }

  // ------------------------------------------------------------------ rejections

  lemma ParentsComeBefore(profile: Profile, s: Candidates, accepted: seq<Id>, x: Id)
    requires Indexed(s) && IsResolution(profile, s, accepted) && x in DecisionKeys(profile, s)
    requires Parents(s[x]) <= Elements(accepted)
    ensures Parents(s[x]) <= IdsOf(LogBefore(profile, s, accepted, x))
  {
    var keys := DecisionKeys(profile, s);
    AcceptedAreCandidates(profile, s, accepted);
    var before := Before(keys, accepted, x);
    LogIds(s, before);
    forall p | p in Parents(s[x])
      ensures p in Elements(before)
    {
      var i :| 0 <= i < |accepted| && accepted[i] == p;
      ParentsComeFirst(GraphOf(profile, s), x, p);
      assert Less(keys[p], keys[x]);
      assert before[i] == p;
    }
  }

  /** The log before a candidate is authorized. */
  lemma LogBeforeIsAuthorized(profile: Profile, s: Candidates, accepted: seq<Id>, x: Id)
    requires IsResolution(profile, s, accepted) && x in DecisionKeys(profile, s)
    ensures Chat.Authorized(profile, LogBefore(profile, s, accepted, x))
  {
    AcceptedLogIsAuthorized(profile, s, accepted);
    var before := Before(DecisionKeys(profile, s), accepted, x);
    PrefixLog(s, accepted, |before|);
    Governance.AuthorizedPrefix(profile, Log(s, accepted), |before|);
  }

  /** What a candidate's judgment rests on: the state reached by the accepted events decided before it. */
  ghost function StateBefore(profile: Profile, s: Candidates, accepted: seq<Id>, x: Id): State
    requires IsResolution(profile, s, accepted) && x in DecisionKeys(profile, s)
  {
    StateAfter(profile, LogBefore(profile, s, accepted, x))
  }

  /**
   The reason given for each candidate: undecodable, behind a missing parent or a cycle, behind a rejected
   parent, or the objection of the state before it. No candidate is rejected without one.
   */
  ghost predicate Objected(profile: Profile, s: Candidates, accepted: seq<Id>, x: Id, reason: RejectionReason)
    requires x in s && IsResolution(profile, s, accepted)
  {
    if Decode(profile, s[x]).None? then reason == InvalidPayload
    else if x in ReachingCycles(profile, s) || exists p :: p in s[x].content.parents && p !in s
      then reason == MissingParent
    else if exists p :: p in s[x].content.parents && p !in accepted then reason == ParentRejected
    else
      x in DecisionKeys(profile, s)
      && Objects(profile.crypto, StateBefore(profile, s, accepted, x), s[x], Decode(profile, s[x]).value,
                 profile.crypto.hash(s[x].publicKey), reason)
  }

  ghost function ReachingCycles(profile: Profile, s: Candidates): set<Id> {
    set x | x in GraphOf(profile, s) && ReachesCycle(GraphOf(profile, s), x)
  }

  lemma StateObjects(profile: Profile, s: Candidates, accepted: seq<Id>, x: Id, reason: RejectionReason)
    requires Indexed(s) && IsResolution(profile, s, accepted) && x in DecisionKeys(profile, s)
    requires Parents(s[x]) <= Elements(accepted)
    ensures x !in accepted && JudgedReason(profile, LogBefore(profile, s, accepted, x), s[x]) == reason <==>
              Objects(profile.crypto, StateBefore(profile, s, accepted, x), s[x], Decode(profile, s[x]).value,
                      profile.crypto.hash(s[x].publicKey), reason)
  {
    var log := LogBefore(profile, s, accepted, x);
    ParentsComeBefore(profile, s, accepted, x);
    LogBeforeIsAuthorized(profile, s, accepted, x);
    Governance.RolesAreNested(profile, log);
    AcceptedAreCandidates(profile, s, accepted);
    assert x in accepted <==> Admissible(profile, log, s[x]);
    FaultIs(profile, StateAfter(profile, log), s[x], Decode(profile, s[x]).value,
            profile.crypto.hash(s[x].publicKey), IdsOf(log), reason);
  }

  /** Before the state is asked. */
  lemma UnjudgedReason(profile: Profile, s: Candidates, accepted: seq<Id>, x: Id, reason: RejectionReason)
    requires Indexed(s) && IsResolution(profile, s, accepted) && x in s
    requires x in DecisionKeys(profile, s) ==> !(Parents(s[x]) <= Elements(accepted))
    ensures x !in accepted && (Reason(profile, s, accepted, x) == reason <==> Objected(profile, s, accepted, x, reason))
  {
    if x in GraphOf(profile, s) {
      LeftoversAreBehindCycles(profile, s, x);
    }
    if x in accepted {
      AcceptedParents(profile, s, accepted, x);
    }
    ParentsWithin(s[x], s.Keys);
    ParentsWithin(s[x], Elements(accepted));
  }

  lemma JudgedReasonIs(profile: Profile, s: Candidates, accepted: seq<Id>, x: Id, reason: RejectionReason)
    requires Indexed(s) && IsResolution(profile, s, accepted) && x in DecisionKeys(profile, s)
    requires Parents(s[x]) <= Elements(accepted)
    ensures (x !in accepted && Reason(profile, s, accepted, x) == reason) <==> Objected(profile, s, accepted, x, reason)
  {
    LeftoversAreBehindCycles(profile, s, x);
    StateObjects(profile, s, accepted, x, reason);
    AcceptedAreCandidates(profile, s, accepted);
    ParentsWithin(s[x], s.Keys);
    ParentsWithin(s[x], Elements(accepted));
  }

  /** A resolution rejects a candidate with a reason exactly when that reason is in place. */
  lemma RejectionIs(profile: Profile, s: Candidates, r: ChatResolution, x: Id, reason: RejectionReason)
    requires Indexed(s) && Resolves(profile, s, r) && x in s
    ensures (x in r.rejected && r.rejected[x] == reason) <==> Objected(profile, s, r.acceptedInOrder, x, reason)
  {
    var accepted := r.acceptedInOrder;
    if x in DecisionKeys(profile, s) && Parents(s[x]) <= Elements(accepted) {
      JudgedReasonIs(profile, s, accepted, x, reason);
    } else {
      UnjudgedReason(profile, s, accepted, x, reason);
    }
    assert x in r.rejected <==> x !in Elements(accepted);
  }

  lemma ParentsWithin(event: SignedEvent, ids: set<Id>)
    ensures Parents(event) <= ids <==> !exists p :: p in event.content.parents && p !in ids
  {
    assert forall p :: p in event.content.parents <==> p in Parents(event);
  }

  /** A candidate is accepted exactly when there is no such reason. */
  lemma AcceptedOrObjected(profile: Profile, s: Candidates, r: ChatResolution, x: Id)
    requires Indexed(s) && Resolves(profile, s, r) && x in s
    ensures x in r.acceptedInOrder <==> forall reason :: !Objected(profile, s, r.acceptedInOrder, x, reason)
  {
    if x in r.rejected {
      RejectionIs(profile, s, r, x, r.rejected[x]);
    }
    forall reason | Objected(profile, s, r.acceptedInOrder, x, reason)
      ensures x in r.rejected
    {
      RejectionIs(profile, s, r, x, reason);
    }
    assert x in r.acceptedInOrder <==> x in Elements(r.acceptedInOrder);
  }
}
