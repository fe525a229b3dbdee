/**
 The state as a record of the log: who administers and who owns the community, which channels it has, the
 keys of its invitations and its home server, each told from the accepted events alone.
 */
module Roles {
  import opened Wrappers
  import opened Bytes
  import opened Protocol
  import opened Chat
  import opened Governance
  import opened Authority
  import Resolver
  import ResolverTheorems

  // ------------------------------------------------------------------ administrators

  /** The event makes `user` an administrator: by founding, by a grant, or by handing over ownership. */
  predicate Raises(profile: Profile, event: SignedEvent, user: Id) {
    match Decode(profile, event)
    case Some(CommunityCreate(_, _)) => profile.crypto.hash(event.publicKey) == user
    case Some(AdministratorGrant(member)) => member == user
    case Some(OwnershipTransfer(newOwner)) => newOwner == user
    case _ => false
  }

  /** The event revokes or removes `user`. */
  predicate Lowers(profile: Profile, event: SignedEvent, user: Id) {
    match Decode(profile, event)
    case Some(AdministratorRevoke(member)) => member == user
    case Some(MemberRemove(member)) => member == user
    case _ => false
  }

  ghost predicate RaisedAt(profile: Profile, log: seq<SignedEvent>, user: Id, i: nat) {
    && i < |log| && Raises(profile, log[i], user)
    && forall j :: i < j < |log| ==> !Lowers(profile, log[j], user)
  }

  lemma RaisedExtension(profile: Profile, init: seq<SignedEvent>, last: SignedEvent, user: Id, i: nat)
    ensures RaisedAt(profile, init + [last], user, i)
            <==> (RaisedAt(profile, init, user, i) && !Lowers(profile, last, user))
                 || (i == |init| && Raises(profile, last, user))
  {
    var log := init + [last];
    assert forall j :: 0 <= j < |init| ==> init[j] == log[j];
    assert log[|init|] == last;
  }

  lemma AdministratorsAfterStep(profile: Profile, before: State, event: SignedEvent, payload: ChatPayload, user: Id)
    requires Decode(profile, event) == Some(payload)
    ensures user in Applied(profile, before, event, payload, AuthorId(profile.crypto, event)).administrators
            <==> Raises(profile, event, user) || (user in before.administrators && !Lowers(profile, event, user))
  {
  }

  /** An administrator is exactly a user the log raised and has neither revoked nor removed since. */
  lemma {:induction false} AdministrationIsTheLog(profile: Profile, log: seq<SignedEvent>, user: Id)
    requires Authorized(profile, log)
    ensures user in StateAfter(profile, log).administrators <==> exists i: nat :: RaisedAt(profile, log, user, i)
  {
    if log != [] {
      var init, last, payload := LastStep(profile, log);
      AdministrationIsTheLog(profile, init, user);
      AdministratorsAfterStep(profile, StateAfter(profile, init), last, payload, user);
      forall i: nat
        ensures RaisedAt(profile, log, user, i)
                <==> (RaisedAt(profile, init, user, i) && !Lowers(profile, last, user))
                     || (i == |init| && Raises(profile, last, user))
      {
        RaisedExtension(profile, init, last, user, i);
      }
      if Raises(profile, last, user) {
        assert RaisedAt(profile, log, user, |init|);
      }
    }
  }

  // ------------------------------------------------------------------ the owner

  /** The user the event makes owner, if it founds the community or hands over ownership. */
  function Crowned(profile: Profile, event: SignedEvent): Option<Id> {
    match Decode(profile, event)
    case Some(CommunityCreate(_, _)) => Some(profile.crypto.hash(event.publicKey))
    case Some(OwnershipTransfer(newOwner)) => Some(newOwner)
    case _ => None
  }

  predicate Transfers(profile: Profile, event: SignedEvent) {
    match Decode(profile, event)
    case Some(OwnershipTransfer(_)) => true
    case _ => false
  }

  /** The i-th event is the last transfer, or the founding if there is no transfer. */
  ghost predicate CrownedAt(profile: Profile, log: seq<SignedEvent>, i: nat) {
    && i < |log| && (i == 0 || Transfers(profile, log[i]))
    && forall j :: i < j < |log| ==> !Transfers(profile, log[j])
  }

  lemma CrownedExtension(profile: Profile, init: seq<SignedEvent>, last: SignedEvent, i: nat)
    ensures CrownedAt(profile, init + [last], i)
            <==> (CrownedAt(profile, init, i) && !Transfers(profile, last))
                 || (i == |init| && (i == 0 || Transfers(profile, last)))
  {
    var log := init + [last];
    assert forall j :: 0 <= j < |init| ==> init[j] == log[j];
    assert log[|init|] == last;
  }

  lemma OwnerAfterStep(profile: Profile, before: State, event: SignedEvent, payload: ChatPayload)
    requires Decode(profile, event) == Some(payload)
    ensures Applied(profile, before, event, payload, AuthorId(profile.crypto, event)).owner
            == if Crowned(profile, event).Some? then Crowned(profile, event) else before.owner
  {
  }

  /** The owner is the target of the last transfer, or the founder. */
  lemma {:induction false} OwnershipIsTheLog(profile: Profile, log: seq<SignedEvent>, i: nat)
    requires Authorized(profile, log) && CrownedAt(profile, log, i)
    ensures Crowned(profile, log[i]).Some? && StateAfter(profile, log).owner == Crowned(profile, log[i])
    decreases |log|
  {
    var init, last, payload := LastStep(profile, log);
    OwnerAfterStep(profile, StateAfter(profile, init), last, payload);
    CrownedExtension(profile, init, last, i);
    GenesisLeads(profile, log);
    if i < |init| {
      OwnershipIsTheLog(profile, init, i);
    }
  }

  /** There is always such an event. */
  lemma SomebodyIsCrowned(profile: Profile, log: seq<SignedEvent>) returns (i: nat)
    requires log != []
    ensures CrownedAt(profile, log, i)
  {
    i := |log| - 1;
    while i > 0 && !Transfers(profile, log[i])
      invariant i < |log| && forall j :: i < j < |log| ==> !Transfers(profile, log[j])
    {
      i := i - 1;
    }
  }

  // ------------------------------------------------------------------ channels and invitations

  predicate Creates(profile: Profile, event: SignedEvent, channel: Id) {
    match Decode(profile, event)
    case Some(ChannelCreate(c, _)) => c == channel
    case _ => false
  }

  ghost predicate SomeCreates(profile: Profile, log: seq<SignedEvent>, channel: Id) {
    exists i :: 0 <= i < |log| && Creates(profile, log[i], channel)
  }

  lemma CreatesInExtension(profile: Profile, init: seq<SignedEvent>, last: SignedEvent, channel: Id)
    ensures SomeCreates(profile, init + [last], channel)
            <==> SomeCreates(profile, init, channel) || Creates(profile, last, channel)
  {
    var log := init + [last];
    assert forall i :: 0 <= i < |init| ==> init[i] == log[i];
    assert log[|init|] == last;
  }

  lemma ChannelsAfterStep(profile: Profile, before: State, event: SignedEvent, payload: ChatPayload, channel: Id)
    requires Decode(profile, event) == Some(payload)
    ensures channel in Applied(profile, before, event, payload, AuthorId(profile.crypto, event)).channels
            <==> channel in before.channels || Creates(profile, event, channel)
  {
  }

  /** The channels are exactly those the log created. */
  lemma {:induction false} ChannelsAreTheLog(profile: Profile, log: seq<SignedEvent>, channel: Id)
    requires Authorized(profile, log)
    ensures channel in StateAfter(profile, log).channels <==> SomeCreates(profile, log, channel)
    decreases |log|
  {
    if log != [] {
      var init, last, payload := LastStep(profile, log);
      ChannelsAreTheLog(profile, init, channel);
      CreatesInExtension(profile, init, last, channel);
      ChannelsAfterStep(profile, StateAfter(profile, init), last, payload, channel);
    }
  }

  /** The last event with the id issued the invitation with the key. */
  ghost predicate IssuedAt(profile: Profile, log: seq<SignedEvent>, invitation: Id, key: Octets, i: nat) {
    && i < |log| && log[i].id == invitation && Decode(profile, log[i]) == Some(MemberInvite(key))
    && forall j :: i < j < |log| && Invites(profile, log[j]) ==> log[j].id != invitation
  }

  lemma IssuedExtension(
    profile: Profile, init: seq<SignedEvent>, last: SignedEvent, invitation: Id, key: Octets, i: nat)
    ensures IssuedAt(profile, init + [last], invitation, key, i)
            <==> (IssuedAt(profile, init, invitation, key, i) && !(Invites(profile, last) && last.id == invitation))
                 || (i == |init| && last.id == invitation && Decode(profile, last) == Some(MemberInvite(key)))
  {
    var log := init + [last];
    assert forall j :: 0 <= j < |init| ==> init[j] == log[j];
    assert log[|init|] == last;
  }

  lemma KeysAfterStep(profile: Profile, before: State, event: SignedEvent, payload: ChatPayload, invitation: Id)
    requires Decode(profile, event) == Some(payload)
    ensures var after := Applied(profile, before, event, payload, AuthorId(profile.crypto, event));
            if event.id == invitation && payload.MemberInvite?
            then invitation in after.invitations && after.invitations[invitation] == payload.capabilityKey
            else invitation in before.invitations ==>
                   invitation in after.invitations && after.invitations[invitation] == before.invitations[invitation]
  {
  }

  /** An invitation has the key it was issued with. */
  lemma {:induction false} InvitationKeysAreTheLog(
    profile: Profile, log: seq<SignedEvent>, invitation: Id, key: Octets, i: nat)
    requires Authorized(profile, log) && IssuedAt(profile, log, invitation, key, i)
    ensures invitation in StateAfter(profile, log).invitations
            && StateAfter(profile, log).invitations[invitation] == key
    decreases |log|
  {
    var init, last, payload := LastStep(profile, log);
    KeysAfterStep(profile, StateAfter(profile, init), last, payload, invitation);
    IssuedExtension(profile, init, last, invitation, key, i);
    if i < |init| {
      InvitationKeysAreTheLog(profile, init, invitation, key, i);
    }
  }

  // ------------------------------------------------------------------ the home server

  predicate Declares(profile: Profile, event: SignedEvent) {
    match Decode(profile, event)
    case Some(HomeServerSet(_, _)) => true
    case _ => false
  }

  /** The i-th event is the last to declare a home server. */
  ghost predicate DeclaredAt(profile: Profile, log: seq<SignedEvent>, i: nat) {
    i < |log| && Declares(profile, log[i]) && forall j :: i < j < |log| ==> !Declares(profile, log[j])
  }

  lemma DeclaredExtension(profile: Profile, init: seq<SignedEvent>, last: SignedEvent, i: nat)
    ensures DeclaredAt(profile, init + [last], i)
            <==> (DeclaredAt(profile, init, i) && !Declares(profile, last)) || (i == |init| && Declares(profile, last))
  {
    var log := init + [last];
    assert forall j :: 0 <= j < |init| ==> init[j] == log[j];
    assert log[|init|] == last;
  }

  /** The home server an event declares: the declaring event, the key and its hash, endpoints, and parents. */
  function Declared(profile: Profile, event: SignedEvent): Option<HomeServerBinding> {
    match Decode(profile, event)
    case Some(HomeServerSet(key, endpoints)) =>
      Some(HomeServerBinding(
        event.id, profile.crypto.hash(Ascii("chatcommons:home-server-id:v1\0") + key), key, endpoints,
        event.content.parents))
    case _ => None
  }

  lemma HomeServerAfterStep(profile: Profile, before: State, event: SignedEvent, payload: ChatPayload)
    requires Decode(profile, event) == Some(payload)
    requires payload.HomeServerSet? ==> |payload.serverKey| == PUBLIC_KEY_LEN
    ensures Applied(profile, before, event, payload, AuthorId(profile.crypto, event)).homeServer
            == if Declares(profile, event) then Declared(profile, event) else before.homeServer
  {
  }

  lemma DeclaredKey(
    profile: Profile, state: State, event: SignedEvent, payload: ChatPayload, author: Id, accepted: set<Id>)
    requires ContextFault(profile, state, event, payload, author, accepted).None?
    ensures payload.HomeServerSet? ==> |payload.serverKey| == PUBLIC_KEY_LEN
  {
  }

  /** The home server is the one declared last, and there is none if none was declared. */
  lemma {:induction false} HomeServerIsTheLog(profile: Profile, log: seq<SignedEvent>)
    requires Authorized(profile, log)
    ensures forall i: nat :: DeclaredAt(profile, log, i) ==>
              StateAfter(profile, log).homeServer == Declared(profile, log[i])
    ensures (forall i: nat :: !DeclaredAt(profile, log, i)) ==> StateAfter(profile, log).homeServer == None
    decreases |log|
  {
    if log != [] {
      var init, last, payload := LastStep(profile, log);
      var before := StateAfter(profile, init);
      DeclaredKey(profile, before, last, payload, AuthorId(profile.crypto, last), IdsOf(init));
      HomeServerAfterStep(profile, before, last, payload);
      HomeServerIsTheLog(profile, init);
      forall i: nat
        ensures DeclaredAt(profile, log, i)
                <==> (DeclaredAt(profile, init, i) && !Declares(profile, last))
                     || (i == |init| && Declares(profile, last))
        ensures i < |init| ==> log[i] == init[i]
      {
        DeclaredExtension(profile, init, last, i);
      }
      if Declares(profile, last) {
        assert DeclaredAt(profile, log, |init|);
      }
    }
  }

  // ------------------------------------------------------------------ authority

  ghost predicate OwnerInLog(profile: Profile, log: seq<SignedEvent>, user: Id) {
    exists i: nat :: CrownedAt(profile, log, i) && Crowned(profile, log[i]) == Some(user)
  }

  ghost predicate AdministratorInLog(profile: Profile, log: seq<SignedEvent>, user: Id) {
    exists i: nat :: RaisedAt(profile, log, user, i)
  }

  ghost predicate MemberInLog(profile: Profile, log: seq<SignedEvent>, user: Id) {
    exists i: nat :: BroughtInAt(profile, log, user, i)
  }

  lemma OwnerIsInLog(profile: Profile, log: seq<SignedEvent>, user: Id)
    requires Authorized(profile, log)
    ensures StateAfter(profile, log).owner == Some(user) <==> OwnerInLog(profile, log, user)
  {
    if log != [] {
      var i := SomebodyIsCrowned(profile, log);
      OwnershipIsTheLog(profile, log, i);
      forall j: nat | CrownedAt(profile, log, j)
        ensures StateAfter(profile, log).owner == Crowned(profile, log[j])
      {
        OwnershipIsTheLog(profile, log, j);
      }
    }
  }

  /** Whether an author has the role its payload asks for can be read off the log. */
  lemma RoleIsInTheLog(profile: Profile, log: seq<SignedEvent>, payload: ChatPayload, author: Id)
    requires Authorized(profile, log)
    ensures HasRole(StateAfter(profile, log), payload, author) <==>
              && (ForOwner(payload) ==> OwnerInLog(profile, log, author))
              && (ForAdministrators(payload) ==> AdministratorInLog(profile, log, author))
              && (payload.MessageCreate? ==> MemberInLog(profile, log, author))
  {
    OwnerIsInLog(profile, log, author);
    AdministrationIsTheLog(profile, log, author);
    MembershipIsTheLog(profile, log, author);
  }

  /**
   Every accepted event was authored with the role its payload asks for, as the events accepted before it
   tell: by the owner, an administrator or a member of that moment.
   */
  lemma AcceptedWithAuthority(profile: Profile, s: Resolver.Candidates, accepted: seq<Id>, k: nat)
    requires Resolver.IsResolution(profile, s, accepted) && k < |accepted|
    ensures Resolver.AllCandidates(s, accepted) && Decode(profile, s[accepted[k]]).Some?
    ensures var before := Resolver.Log(s, accepted)[..k];
            var payload, author := Decode(profile, s[accepted[k]]).value, AuthorId(profile.crypto, s[accepted[k]]);
            && (ForOwner(payload) ==> OwnerInLog(profile, before, author))
            && (ForAdministrators(payload) ==> AdministratorInLog(profile, before, author))
            && (payload.MessageCreate? ==> MemberInLog(profile, before, author))
            && (payload.MessageCreate? ==> SomeCreates(profile, before, payload.target))
            && (payload.MemberRemove? ==> !OwnerInLog(profile, before, payload.removed))
            && (payload.AdministratorRevoke? ==> !OwnerInLog(profile, before, payload.revoked))
  {
    ResolverTheorems.AcceptedLogIsAuthorized(profile, s, accepted);
    var log := Resolver.Log(s, accepted);
    assert Admissible(profile, log[..k], log[k]);
    AuthorizedPrefix(profile, log, k);
    AuthorityOf(profile, log[..k], log[k], Decode(profile, log[k]).value);
  }

  lemma AuthorityOf(profile: Profile, before: seq<SignedEvent>, event: SignedEvent, payload: ChatPayload)
    requires Authorized(profile, before) && Admissible(profile, before, event)
    requires Decode(profile, event) == Some(payload)
    ensures var author := AuthorId(profile.crypto, event);
            && (ForOwner(payload) ==> OwnerInLog(profile, before, author))
            && (ForAdministrators(payload) ==> AdministratorInLog(profile, before, author))
            && (payload.MessageCreate? ==> MemberInLog(profile, before, author))
            && (payload.MessageCreate? ==> SomeCreates(profile, before, payload.target))
            && (payload.MemberRemove? ==> !OwnerInLog(profile, before, payload.removed))
            && (payload.AdministratorRevoke? ==> !OwnerInLog(profile, before, payload.revoked))
  {
    AdmissibleIs(profile, before, event);
    RoleIsInTheLog(profile, before, payload, AuthorId(profile.crypto, event));
    match payload {
      case MessageCreate(channel, _) => ChannelsAreTheLog(profile, before, channel);
      case MemberRemove(member) => OwnerIsInLog(profile, before, member);
      case AdministratorRevoke(member) => OwnerIsInLog(profile, before, member);
      case _ =>
    }
  }

  // ------------------------------------------------------------------ the snapshot

  /**
   The snapshot's active invitations are those the accepted log issued and has not redeemed, with the keys
   they were issued with, and its events are the accepted ones.
   */
  lemma SnapshotIsTheLog(profile: Profile, s: Resolver.Candidates, r: Resolver.ChatResolution, i: Id)
    requires Resolver.Resolves(profile, s, r)
    ensures i in r.snapshot.activeInvitations <==>
              var log := Resolver.Log(s, r.acceptedInOrder);
              SomeIssues(profile, log, i) && !SomeRedeems(profile, log, i)
    ensures i in r.snapshot.activeInvitations ==>
              i in r.snapshot.state.invitations
              && r.snapshot.activeInvitations[i] == r.snapshot.state.invitations[i]
    ensures i in r.snapshot.eventIds <==> i in r.acceptedInOrder
  {
    var log := Resolver.Log(s, r.acceptedInOrder);
    ResolverTheorems.AcceptedLogIsAuthorized(profile, s, r.acceptedInOrder);
    RedeemedInLog(profile, log, i);
    RolesAreNested(profile, log);
  }
}
