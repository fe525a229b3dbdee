/**
 A removal or revocation of a user against what that user authors on the same heads: the removal is decided
 first whichever id is smaller, and the other event no longer has the role it needs. Only another removal
 with a smaller id comes before it.
 */
module Removals {
  import opened Wrappers
  import opened Protocol
  import opened Ordering
  import opened Chat
  import opened DecisionOrder
  import opened Resolver
  import opened ResolverTheorems
  import opened Authority
  import opened RoundOrder
  import Governance

  predicate Removes(profile: Profile, x: SignedEvent, user: Id) {
    Decode(profile, x).Some? && Decode(profile, x).value == MemberRemove(user)
  }

  predicate Revokes(profile: Profile, x: SignedEvent, user: Id) {
    Decode(profile, x).Some? && Decode(profile, x).value == AdministratorRevoke(user)
  }

  predicate NeedsAdministration(profile: Profile, y: SignedEvent) {
    match Decode(profile, y)
    case Some(ChannelCreate(_, _)) => true
    case Some(MemberInvite(_)) => true
    case Some(MemberRemove(_)) => true
    case _ => false
  }

  predicate IsMessage(profile: Profile, y: SignedEvent) {
    match Decode(profile, y)
    case Some(MessageCreate(_, _)) => true
    case _ => false
  }

  predicate IsRemoval(profile: Profile, y: SignedEvent) {
    match Decode(profile, y)
    case Some(MemberRemove(_)) => true
    case _ => false
  }

  /** `x` takes from the author of `y` the standing that `y` needs. */
  predicate Undercuts(profile: Profile, x: SignedEvent, y: SignedEvent) {
    var author := AuthorId(profile.crypto, y);
    || (Removes(profile, x, author) && (IsMessage(profile, y) || NeedsAdministration(profile, y)))
    || (Revokes(profile, x, author) && NeedsAdministration(profile, y))
  }

  /** The removal `y` takes from `x` its author's standing or its target. */
  predicate Forestalls(profile: Profile, y: SignedEvent, x: SignedEvent) {
    Removes(profile, y, AuthorId(profile.crypto, x)) || Removes(profile, y, AuthorId(profile.crypto, y))
  }

  // ------------------------------------------------------------------ the order between them

  lemma RemovalPrecedes(profile: Profile, x: SignedEvent, y: SignedEvent)
    requires Undercuts(profile, x, y) && (!IsRemoval(profile, y) || x.id < y.id)
    ensures Precedes(profile, x, y)
  {
  }

  lemma RemovedPrecedes(profile: Profile, x: SignedEvent, y: SignedEvent)
    requires Undercuts(profile, x, y) && IsRemoval(profile, y) && y.id < x.id
    ensures Precedes(profile, y, x)
  {
  }

  // ------------------------------------------------------------------ what the first leaves

  lemma ExtendedLog(profile: Profile, log: seq<SignedEvent>, x: SignedEvent)
    requires Chat.Authorized(profile, log) && Admissible(profile, log, x)
    ensures Chat.Authorized(profile, log + [x])
    ensures StateAfter(profile, log + [x])
            == Applied(profile, StateAfter(profile, log), x, Decode(profile, x).value, AuthorId(profile.crypto, x))
    ensures IdsOf(log + [x]) == IdsOf(log) + {x.id}
  {
    var all := log + [x];
    assert all[..|log|] == log;
    forall i | 0 <= i < |all|
      ensures Admissible(profile, all[..i], all[i])
    {
      if i < |log| {
        assert all[..i] == log[..i];
        assert Admissible(profile, log[..i], log[i]);
      }
    }
    assert forall e :: e in all <==> e in log || e == x;
  }

  /** The reason given to an event that was undercut. */
  function LossReason(profile: Profile, y: SignedEvent): RejectionReason {
    if IsMessage(profile, y) then NotMember else NotAdministrator
  }

  lemma StateAfterLoss(
    profile: Profile, before: State, x: SignedEvent, severing: ChatPayload, author: Id,
    y: SignedEvent, payload: ChatPayload, user: Id)
    requires severing == MemberRemove(user) || severing == AdministratorRevoke(user)
    requires ForAdministrators(payload) || (payload.MessageCreate? && severing.MemberRemove?)
    requires InCommunity(before, y, payload)
    ensures var after := Applied(profile, before, x, severing, author);
            && !HasRole(after, payload, user) && user !in after.administrators
            && (severing.MemberRemove? ==> user !in after.members)
            && Objects(profile.crypto, after, y, payload, user,
                       if payload.MessageCreate? then NotMember else NotAdministrator)
  {
  }

  lemma StandingLost(profile: Profile, log: seq<SignedEvent>, x: SignedEvent, y: SignedEvent)
    requires Chat.Authorized(profile, log) && Admissible(profile, log, x) && Admissible(profile, log, y)
    requires Undercuts(profile, x, y)
    ensures !Admissible(profile, log + [x], y)
    ensures var user, state := AuthorId(profile.crypto, y), StateAfter(profile, log + [x]);
            && user !in state.administrators && (Removes(profile, x, user) ==> user !in state.members)
            && Objects(profile.crypto, state, y, Decode(profile, y).value, user, LossReason(profile, y))
  {
    ExtendedLog(profile, log, x);
    Standing(profile, log, y);
    StateAfterLoss(profile, StateAfter(profile, log), x, Decode(profile, x).value, AuthorId(profile.crypto, x),
                   y, Decode(profile, y).value, AuthorId(profile.crypto, y));
    AdmissibleInState(profile, log + [x], y);
  }

  /** In the state a removal leaves, what undercuts it stands as before but for its author and target. */
  lemma StateAfterRemoval(
    profile: Profile, before: State, y: SignedEvent, member: Id, x: SignedEvent, payload: ChatPayload, remover: Id)
    requires payload == MemberRemove(remover) || payload == AdministratorRevoke(remover)
    requires InCommunity(before, x, payload) && remover in before.administrators
    requires HasRole(before, payload, AuthorId(profile.crypto, x)) && HasTarget(before, payload)
    requires before.owner != Some(member)
    ensures var after := Applied(profile, before, y, MemberRemove(member), remover);
            InCommunity(after, x, payload) && HasRole(after, payload, AuthorId(profile.crypto, x))
            && HasTarget(after, payload)
            <==> member != AuthorId(profile.crypto, x) && member != remover
  {
  }

  /** After the other removal, this one may follow unless its author or its target is gone. */
  lemma RemovalMayFollow(profile: Profile, log: seq<SignedEvent>, x: SignedEvent, y: SignedEvent)
    requires Chat.Authorized(profile, log) && Admissible(profile, log, x) && Admissible(profile, log, y)
    requires Undercuts(profile, x, y) && IsRemoval(profile, y)
    ensures Admissible(profile, log + [y], x) <==> !Forestalls(profile, y, x)
  {
    ExtendedLog(profile, log, y);
    Standing(profile, log, x);
    Standing(profile, log, y);
    var remover, member := AuthorId(profile.crypto, y), Decode(profile, y).value.removed;
    StateAfterRemoval(profile, StateAfter(profile, log), y, member, x, Decode(profile, x).value, remover);
    SeveringMayFollow(profile, log, x, y);
  }

  lemma Standing(profile: Profile, log: seq<SignedEvent>, x: SignedEvent)
    requires Chat.Authorized(profile, log) && Admissible(profile, log, x)
    ensures var state, payload := StateAfter(profile, log), Decode(profile, x).value;
            && InCommunity(state, x, payload) && HasRole(state, payload, AuthorId(profile.crypto, x))
            && HasTarget(state, payload)
  {
    AdmissibleInState(profile, log, x);
  }

  lemma SeveringMayFollow(profile: Profile, log: seq<SignedEvent>, x: SignedEvent, y: SignedEvent)
    requires Chat.Authorized(profile, log) && Admissible(profile, log, x) && Admissible(profile, log, y)
    requires Decode(profile, x).value.MemberRemove? || Decode(profile, x).value.AdministratorRevoke?
    ensures Admissible(profile, log + [y], x) <==>
              var state, payload := StateAfter(profile, log + [y]), Decode(profile, x).value;
              && InCommunity(state, x, payload) && HasRole(state, payload, AuthorId(profile.crypto, x))
              && HasTarget(state, payload)
  {
    ExtendedLog(profile, log, y);
    AdmissibleInState(profile, log + [y], x);
  }

  // ------------------------------------------------------------------ together

  lemma SameTogether(s: Candidates, x: SignedEvent, y: SignedEvent)
    requires x.id != y.id
    ensures With(With(s, x), y) == With(With(s, y), x)
  {
  }

  /** The removal stands and the other event does not, unless that one is a removal with a smaller id. */
  lemma RemovalWins(profile: Profile, s: Candidates, a: seq<Id>, x: SignedEvent, y: SignedEvent)
    requires Contenders(profile, s, a, x, y) && Undercuts(profile, x, y)
    requires !IsRemoval(profile, y) || x.id < y.id
    ensures IsResolution(profile, With(With(s, x), y), a + [x.id])
  {
    RemovalPrecedes(profile, x, y);
    FirstStands(profile, s, a, x, y);
    AcceptedLogIsAuthorized(profile, s, a);
    StandingLost(profile, Log(s, a), x, y);
  }

  /** A removal with a smaller id stands; the other follows it unless its author or its target is gone. */
  lemma EarlierRemovalStands(profile: Profile, s: Candidates, a: seq<Id>, x: SignedEvent, y: SignedEvent)
    requires Contenders(profile, s, a, x, y) && Undercuts(profile, x, y)
    requires IsRemoval(profile, y) && y.id < x.id
    ensures IsResolution(profile, With(With(s, x), y),
                         if Forestalls(profile, y, x) then a + [y.id] else a + [y.id] + [x.id])
  {
    RemovedPrecedes(profile, x, y);
    SameTogether(s, x, y);
    ContendersSwap(profile, s, a, x, y);
    FirstStands(profile, s, a, y, x);
    AcceptedLogIsAuthorized(profile, s, a);
    RemovalMayFollow(profile, Log(s, a), x, y);
  }

  lemma ContendersSwap(profile: Profile, s: Candidates, a: seq<Id>, x: SignedEvent, y: SignedEvent)
    requires Contenders(profile, s, a, x, y)
    ensures Contenders(profile, s, a, y, x)
  {
  }

  /**
   The reason given to the event that lost: its author is no member any more, or no administrator. The
   author has lost the role in the snapshot, whichever of the two events arrived first.
   */
  lemma RemovedIsRejected(
    profile: Profile, s: Candidates, a: seq<Id>, x: SignedEvent, y: SignedEvent, r: ChatResolution)
    requires Contenders(profile, s, a, x, y) && Undercuts(profile, x, y)
    requires !IsRemoval(profile, y) || x.id < y.id
    requires Resolves(profile, With(With(s, x), y), r)
    ensures r.acceptedInOrder == a + [x.id] && r.rejected.Keys == {y.id}
    ensures r.rejected[y.id] == if IsMessage(profile, y) then NotMember else NotAdministrator
    ensures AuthorId(profile.crypto, y) !in r.snapshot.state.administrators
    ensures Removes(profile, x, AuthorId(profile.crypto, y)) ==>
              AuthorId(profile.crypto, y) !in r.snapshot.state.members
  {
    var u := With(With(s, x), y);
    RemovalWins(profile, s, a, x, y);
    OnlySecondIsRejected(profile, s, a, x, y, u, r);
    LossInSnapshot(profile, s, a, x, y);
    LossIsReported(profile, s, a, x, y, u, r);
  }

  lemma LossInSnapshot(profile: Profile, s: Candidates, a: seq<Id>, x: SignedEvent, y: SignedEvent)
    requires Contenders(profile, s, a, x, y) && Undercuts(profile, x, y)
    ensures var user, state := AuthorId(profile.crypto, y), StateAfter(profile, Log(s, a) + [x]);
            user !in state.administrators && (Removes(profile, x, user) ==> user !in state.members)
  {
    AcceptedLogIsAuthorized(profile, s, a);
    StandingLost(profile, Log(s, a), x, y);
  }

  lemma LossIsReported(
    profile: Profile, s: Candidates, a: seq<Id>, x: SignedEvent, y: SignedEvent, u: Candidates, r: ChatResolution)
    requires Contenders(profile, s, a, x, y) && Undercuts(profile, x, y) && u == With(With(s, x), y)
    requires !IsRemoval(profile, y) || x.id < y.id
    requires IsResolution(profile, u, a + [x.id]) && Resolves(profile, u, r)
    ensures y.id in r.rejected
    ensures r.rejected[y.id] == if IsMessage(profile, y) then NotMember else NotAdministrator
  {
    RemovalPrecedes(profile, x, y);
    AcceptedLogIsAuthorized(profile, s, a);
    StandingLost(profile, Log(s, a), x, y);
    SecondObjected(profile, s, a, x, y, u, LossReason(profile, y));
    BothAreIndexed(s, x, y);
    ReportedWhenObjected(profile, u, a + [x.id], y.id, r, LossReason(profile, y));
  }
}
