/**
 What every authorized log keeps: who may hold which role, and where members come from.
 All results are about logs of any length whose every event was authorized in the state before it.
 */
module Governance {
  import opened Wrappers
  import opened Protocol
  import opened Ordering
  import SignedBytes
  import opened Chat

  /** The shape of every reachable state. */
  ghost predicate Governed(state: State) {
    && (state.community.None? ==> state == EMPTY_STATE)
    && (state.community.Some? ==>
          && state.owner.Some?
          && state.owner.value in state.administrators)
    && state.administrators <= state.members
    && state.redeemed <= state.invitations.Keys
    && (forall i :: i in state.invitations ==> |state.invitations[i]| == PUBLIC_KEY_LEN)
  }

  lemma ApplyKeepsGoverned(
    profile: Profile, state: State, event: SignedEvent, payload: ChatPayload, author: Id, accepted: set<Id>)
    requires Governed(state)
    requires ContextFault(profile, state, event, payload, author, accepted).None?
    ensures Governed(Applied(profile, state, event, payload, author))
    ensures Applied(profile, state, event, payload, author).community
            == if payload.CommunityCreate? then Some(event.id) else state.community
    ensures state.community.None? ==> payload.CommunityCreate?
  {
  }

  lemma AuthorizedPrefix(profile: Profile, log: seq<SignedEvent>, n: nat)
    requires Authorized(profile, log) && n <= |log|
    ensures Authorized(profile, log[..n])
  {
    forall i | 0 <= i < n
      ensures Admissible(profile, log[..n][..i], log[..n][i])
    {
      assert log[..n][..i] == log[..i];
      assert Admissible(profile, log[..i], log[i]);
    }
  }

  /** Splits an authorized log into its last step. */
  lemma LastStep(profile: Profile, log: seq<SignedEvent>)
    returns (init: seq<SignedEvent>, last: SignedEvent, payload: ChatPayload)
    requires Authorized(profile, log) && log != []
    ensures init == log[..|log| - 1] && last == log[|log| - 1] && log == init + [last]
    ensures Authorized(profile, init)
    ensures Decode(profile, last) == Some(payload)
    ensures ContextFault(profile, StateAfter(profile, init), last, payload,
                         AuthorId(profile.crypto, last), IdsOf(init)).None?
    ensures StateAfter(profile, log)
            == Applied(profile, StateAfter(profile, init), last, payload, AuthorId(profile.crypto, last))
  {
    init, last := log[..|log| - 1], log[|log| - 1];
    AuthorizedPrefix(profile, log, |log| - 1);
    assert Admissible(profile, init, last);
    payload := Decode(profile, last).value;
  }

  /** The owner is an administrator and administrators are members, after every authorized log. */
  lemma {:induction false} RolesAreNested(profile: Profile, log: seq<SignedEvent>)
    requires Authorized(profile, log)
    ensures Governed(StateAfter(profile, log))
    ensures StateAfter(profile, log).community.Some? <==> log != []
  {
    if log != [] {
      var init, last, payload := LastStep(profile, log);
      RolesAreNested(profile, init);
      ApplyKeepsGoverned(profile, StateAfter(profile, init), last, payload,
                         AuthorId(profile.crypto, last), IdsOf(init));
    }
  }

  lemma SomeParent(event: SignedEvent)
    requires event.content.parents != []
    ensures Parents(event) != {}
  {
    assert event.content.parents[0] in Parents(event);
  }

  /** A log starts with its parentless community-create, and every later event carries that community. */
  lemma {:induction false} GenesisLeads(profile: Profile, log: seq<SignedEvent>)
    requires Authorized(profile, log) && log != []
    ensures Decode(profile, log[0]).value.CommunityCreate? && log[0].content.parents == []
    ensures StateAfter(profile, log).community == Some(log[0].id)
    ensures forall i :: 0 < i < |log| ==>
              log[i].content.community == Some(log[0].id) && !Decode(profile, log[i]).value.CommunityCreate?
  {
    var init, last, payload := LastStep(profile, log);
    RolesAreNested(profile, init);
    ApplyKeepsGoverned(profile, StateAfter(profile, init), last, payload,
                       AuthorId(profile.crypto, last), IdsOf(init));
    if init == [] {
      assert Admissible(profile, [], last) by { assert log[..0] == []; }
      if last.content.parents != [] {
        SomeParent(last);
      }
    } else {
      GenesisLeads(profile, init);
      assert init[0] == log[0];
      assert forall i :: 0 < i < |init| ==> init[i] == log[i];
    }
  }

  // ------------------------------------------------------------------ admission

  function Invites(profile: Profile, event: SignedEvent): bool {
    match Decode(profile, event)
    case Some(MemberInvite(_)) => true
    case _ => false
  }

  /** How many invitations the log accepted. */
  function InvitationCount(profile: Profile, log: seq<SignedEvent>): nat {
    if log == [] then 0
    else InvitationCount(profile, log[..|log| - 1]) + if Invites(profile, log[|log| - 1]) then 1 else 0
  }

  /** The positions in the log of the invitations it accepted. */
  function InvitationsAt(profile: Profile, log: seq<SignedEvent>): set<nat> {
    set i: nat | i < |log| && Invites(profile, log[i])
  }

  lemma {:induction false} CountedOnce(profile: Profile, log: seq<SignedEvent>)
    ensures InvitationCount(profile, log) == |InvitationsAt(profile, log)|
    decreases |log|
  {
    if log != [] {
      var init, k := log[..|log| - 1], |log| - 1;
      CountedOnce(profile, init);
      var last := if Invites(profile, log[k]) then {k} else {};
      assert InvitationsAt(profile, log) == InvitationsAt(profile, init) + last;
    }
  }

  function ActiveInvitations(state: State): set<Id> {
    state.invitations.Keys - state.redeemed
  }

  lemma InsertGrowsByAtMostOne(s: set<Id>, x: Id)
    ensures |s + {x}| <= |s| + 1
    ensures x !in s ==> |s + {x}| == |s| + 1
  {
    if x in s {
      assert s + {x} == s;
    }
  }

  lemma LedgerStep(
    profile: Profile, before: State, event: SignedEvent, payload: ChatPayload, author: Id, accepted: set<Id>)
    requires Governed(before)
    requires ContextFault(profile, before, event, payload, author, accepted).None?
    requires |before.members| <= |before.redeemed| + (if before.community.Some? then 1 else 0)
    ensures var after := Applied(profile, before, event, payload, author);
            && |after.members| <= |after.redeemed| + (if after.community.Some? then 1 else 0)
            && |after.invitations| <= |before.invitations| + (if payload.MemberInvite? then 1 else 0)
  {
    var after := Applied(profile, before, event, payload, author);
    match payload {
      case CommunityCreate(_, _) =>
        InsertGrowsByAtMostOne(before.members, author);
      case MemberAccept(invitation, _) =>
        InsertGrowsByAtMostOne(before.members, author);
        InsertGrowsByAtMostOne(before.redeemed, invitation);
      case MemberInvite(key) =>
        assert after.invitations.Keys == before.invitations.Keys + {event.id};
        InsertGrowsByAtMostOne(before.invitations.Keys, event.id);
      case MemberRemove(member) =>
        SubsetIsNoLarger(after.members, before.members);
      case _ =>
    }
  }

  /** Members are paid for by redemptions, and redemptions by invitations. */
  lemma {:induction false} AdmissionLedger(profile: Profile, log: seq<SignedEvent>)
    requires Authorized(profile, log)
    ensures var s := StateAfter(profile, log);
            |s.members| <= |s.redeemed| + (if s.community.Some? then 1 else 0)
    ensures |StateAfter(profile, log).invitations| <= InvitationCount(profile, log)
  {
    if log != [] {
      var init, last, payload := LastStep(profile, log);
      AdmissionLedger(profile, init);
      RolesAreNested(profile, init);
      LedgerStep(profile, StateAfter(profile, init), last, payload, AuthorId(profile.crypto, last), IdsOf(init));
    }
  }

  /** Conservation: members plus open invitations never exceed the founder plus invitations issued. */
  lemma AdmissionIsConserved(profile: Profile, log: seq<SignedEvent>)
    requires Authorized(profile, log)
    ensures var s := StateAfter(profile, log);
            |s.members| + |s.invitations.Keys - s.redeemed| <= 1 + |InvitationsAt(profile, log)|
  {
    CountedOnce(profile, log);
    AdmissionLedger(profile, log);
    RolesAreNested(profile, log);
    var s := StateAfter(profile, log);
    assert s.invitations.Keys == ActiveInvitations(s) + s.redeemed;
    assert ActiveInvitations(s) * s.redeemed == {};
    assert |s.invitations.Keys| == |ActiveInvitations(s)| + |s.redeemed|;
  }

  /** The event redeems `invitation`. */
  predicate Redeems(profile: Profile, event: SignedEvent, invitation: Id) {
    match Decode(profile, event)
    case Some(MemberAccept(i, _)) => i == invitation
    case _ => false
  }

  ghost predicate SomeRedeems(profile: Profile, log: seq<SignedEvent>, invitation: Id) {
    exists i :: 0 <= i < |log| && Redeems(profile, log[i], invitation)
  }

  ghost predicate SomeIssues(profile: Profile, log: seq<SignedEvent>, invitation: Id) {
    exists i :: 0 <= i < |log| && log[i].id == invitation && Invites(profile, log[i])
  }

  lemma SomeInExtension(profile: Profile, init: seq<SignedEvent>, last: SignedEvent, invitation: Id)
    ensures SomeRedeems(profile, init + [last], invitation)
            <==> SomeRedeems(profile, init, invitation) || Redeems(profile, last, invitation)
    ensures SomeIssues(profile, init + [last], invitation)
            <==> SomeIssues(profile, init, invitation) || (last.id == invitation && Invites(profile, last))
  {
    var log := init + [last];
    assert forall i :: 0 <= i < |init| ==> init[i] == log[i];
    assert log[|init|] == last;
  }

  lemma InvitationsAfterStep(
    profile: Profile, before: State, event: SignedEvent, payload: ChatPayload, author: Id, invitation: Id)
    requires Decode(profile, event) == Some(payload)
    ensures var after := Applied(profile, before, event, payload, author);
            && (invitation in after.redeemed <==> invitation in before.redeemed || Redeems(profile, event, invitation))
            && (invitation in after.invitations
                <==> invitation in before.invitations || (event.id == invitation && Invites(profile, event)))
  {
  }

  /** The state remembers exactly the invitations the log issued and those it redeemed. */
  lemma {:induction false} RedeemedInLog(profile: Profile, log: seq<SignedEvent>, invitation: Id)
    requires Authorized(profile, log)
    ensures invitation in StateAfter(profile, log).redeemed <==> SomeRedeems(profile, log, invitation)
    ensures invitation in StateAfter(profile, log).invitations <==> SomeIssues(profile, log, invitation)
  {
    if log != [] {
      var init, last, payload := LastStep(profile, log);
      RedeemedInLog(profile, init, invitation);
      SomeInExtension(profile, init, last, invitation);
      InvitationsAfterStep(profile, StateAfter(profile, init), last, payload,
                           AuthorId(profile.crypto, last), invitation);
    }
  }

  /**
   An invitation is redeemed at most once, only after it was accepted into the log, and only with a
   signature by the invitation's capability key over this community, invitation and author.
   */
  lemma RedemptionIsSingleUse(profile: Profile, log: seq<SignedEvent>, k: nat, invitation: Id)
    requires Authorized(profile, log) && k < |log| && Redeems(profile, log[k], invitation)
    ensures exists i :: 0 <= i < k && log[i].id == invitation && Invites(profile, log[i])
    ensures forall j :: 0 <= j < |log| && Redeems(profile, log[j], invitation) ==> j == k
    ensures var before := StateAfter(profile, log[..k]);
            && invitation in before.invitations && before.community.Some?
            && profile.crypto.verify(
                 before.invitations[invitation],
                 SignedBytes.AcceptanceBytes(before.community.value, invitation, AuthorId(profile.crypto, log[k])),
                 Decode(profile, log[k]).value.capabilitySignature)
  {
    assert Admissible(profile, log[..k], log[k]);
    AuthorizedPrefix(profile, log, k);
    RedeemedInLog(profile, log[..k], invitation);
    assert forall i :: 0 <= i < k ==> log[..k][i] == log[i];
    forall j | 0 <= j < |log| && Redeems(profile, log[j], invitation)
      ensures j == k
    {
      if k < j {
        NoSecondRedemption(profile, log, k, j, invitation);
      }
    }
  }

  lemma NoSecondRedemption(profile: Profile, log: seq<SignedEvent>, k: nat, j: nat, invitation: Id)
    requires Authorized(profile, log) && k < j < |log|
    requires Redeems(profile, log[k], invitation) 
    ensures !Redeems(profile, log[j], invitation)
  {
    AuthorizedPrefix(profile, log, j);
    assert log[..j][k] == log[k];
    RedeemedInLog(profile, log[..j], invitation);
    assert Admissible(profile, log[..j], log[j]);
  }

  // ------------------------------------------------------------------ membership

  /** The event brings `user` in: it founds the community, or redeems an invitation. */
  predicate BringsIn(profile: Profile, event: SignedEvent, user: Id) {
    && AuthorId(profile.crypto, event) == user
    && match Decode(profile, event)
       case Some(CommunityCreate(_, _)) => true
       case Some(MemberAccept(_, _)) => true
       case _ => false
  }

  predicate Removes(profile: Profile, event: SignedEvent, user: Id) {
    match Decode(profile, event)
    case Some(MemberRemove(member)) => member == user
    case _ => false
  }

  ghost predicate BroughtInAt(profile: Profile, log: seq<SignedEvent>, user: Id, i: nat) {
    && i < |log| && BringsIn(profile, log[i], user)
    && forall j :: i < j < |log| ==> !Removes(profile, log[j], user)
  }

  lemma BroughtInExtension(profile: Profile, init: seq<SignedEvent>, last: SignedEvent, user: Id, i: nat)
    ensures BroughtInAt(profile, init + [last], user, i)
            <==> (BroughtInAt(profile, init, user, i) && !Removes(profile, last, user))
                 || (i == |init| && BringsIn(profile, last, user))
  {
    var log := init + [last];
    assert forall j :: 0 <= j < |init| ==> init[j] == log[j];
    assert log[|init|] == last;
  }

  lemma MembersAfterStep(profile: Profile, before: State, event: SignedEvent, payload: ChatPayload, user: Id)
    requires Decode(profile, event) == Some(payload)
    ensures user in Applied(profile, before, event, payload, AuthorId(profile.crypto, event)).members
            <==> BringsIn(profile, event, user) || (user in before.members && !Removes(profile, event, user))
  {
  }

  /** A member is exactly a user the log brought in and has not removed since. */
  lemma {:induction false} MembershipIsTheLog(profile: Profile, log: seq<SignedEvent>, user: Id)
    requires Authorized(profile, log)
    ensures user in StateAfter(profile, log).members <==> exists i: nat :: BroughtInAt(profile, log, user, i)
  {
    if log != [] {
      var init, last, payload := LastStep(profile, log);
      MembershipIsTheLog(profile, init, user);
      MembersAfterStep(profile, StateAfter(profile, init), last, payload, user);
      forall i: nat
        ensures BroughtInAt(profile, log, user, i)
                <==> (BroughtInAt(profile, init, user, i) && !Removes(profile, last, user))
                     || (i == |init| && BringsIn(profile, last, user))
      {
        BroughtInExtension(profile, init, last, user, i);
      }
      if BringsIn(profile, last, user) {
        assert BroughtInAt(profile, log, user, |init|);
      }
    }
  }
}
