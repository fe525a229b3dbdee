/**
 Two acceptances of one invitation, authored on the same heads: alone each is accepted, together the one
 with the smaller Event ID wins, whichever arrived first.
 */
module Rivals {
  import opened Wrappers
  import opened Protocol
  import opened Ordering
  import opened Chat
  import opened Causality
  import opened DecisionOrder
  import opened Resolver
  import opened ResolverTheorems
  import opened Authoring
  import opened RoundOrder
  import Closure
  import Governance

  // ------------------------------------------------------------------ rivals

  /** Everything known is accepted up to its heads, and both events would be accepted on top of it. */
  ghost predicate Rivals(profile: Profile, s: Candidates, a: seq<Id>, invitation: Id, x: SignedEvent, y: SignedEvent) {
    && Indexed(s) && Closure.Grounded(s, s.Keys) && IsResolution(profile, s, a) && Heads(s) <= Elements(a)
    && AllCandidates(s, a)
    && x.id !in s && y.id !in s && x.id < y.id
    && Parents(x) == Heads(s) && Parents(y) == Heads(s)
    && Governance.Redeems(profile, x, invitation) && Governance.Redeems(profile, y, invitation)
    && Admissible(profile, Log(s, a), x) && Admissible(profile, Log(s, a), y)
  }

  lemma RivalsContend(profile: Profile, s: Candidates, a: seq<Id>, invitation: Id, x: SignedEvent, y: SignedEvent)
    requires Rivals(profile, s, a, invitation, x, y)
    ensures Contenders(profile, s, a, x, y) && Precedes(profile, x, y)
  {
  }

  /** Alone, either is accepted. */
  lemma AloneEitherWins(
    profile: Profile, s: Candidates, a: seq<Id>, invitation: Id, x: SignedEvent, y: SignedEvent)
    requires Rivals(profile, s, a, invitation, x, y)
    ensures Elements(a) == s.Keys
    ensures IsResolution(profile, With(s, x), a + [x.id]) && IsResolution(profile, With(s, y), a + [y.id])
  {
    RivalsContend(profile, s, a, invitation, x, y);
    EitherAlone(profile, s, a, x, y);
  }

  /** After one redemption the other is not admissible. */
  lemma SecondIsNotAdmissible(profile: Profile, log: seq<SignedEvent>, invitation: Id, x: SignedEvent, y: SignedEvent)
    requires Governance.Redeems(profile, x, invitation) && Governance.Redeems(profile, y, invitation)
    ensures invitation in StateAfter(profile, log + [x]).redeemed
    ensures !Admissible(profile, log + [x], y)
  {
    assert (log + [x])[..|log|] == log;
  }

  /** Together, the smaller id is accepted and the other is not. */
  lemma SmallerIdWins(profile: Profile, s: Candidates, a: seq<Id>, invitation: Id, x: SignedEvent, y: SignedEvent)
    requires Rivals(profile, s, a, invitation, x, y)
    ensures IsResolution(profile, With(With(s, x), y), a + [x.id])
  {
    RivalsContend(profile, s, a, invitation, x, y);
    FirstStands(profile, s, a, x, y);
    SecondIsNotAdmissible(profile, Log(s, a), invitation, x, y);
  }

  /**
   So a user whose acceptance was accepted first loses membership when a rival with a smaller id
   arrives, unless it was a member before or authored that rival too.
   */
  lemma LaterRivalDisplaces(
    profile: Profile, s: Candidates, a: seq<Id>, invitation: Id, x: SignedEvent, y: SignedEvent,
    alone: ChatResolution, both: ChatResolution)
    requires Rivals(profile, s, a, invitation, x, y)
    requires Resolves(profile, With(s, y), alone) && Resolves(profile, With(With(s, x), y), both)
    ensures var members := StateAfter(profile, Log(s, a)).members;
            && y.id in alone.snapshot.eventIds && x.id in both.snapshot.eventIds && y.id !in both.snapshot.eventIds
            && alone.snapshot.state.members == members + {AuthorId(profile.crypto, y)}
            && both.snapshot.state.members == members + {AuthorId(profile.crypto, x)}
  {
    AloneEitherWins(profile, s, a, invitation, x, y);
    SmallerIdWins(profile, s, a, invitation, x, y);
    ResolutionIsUnique(profile, With(s, y), alone.acceptedInOrder, a + [y.id]);
    ResolutionIsUnique(profile, With(With(s, x), y), both.acceptedInOrder, a + [x.id]);
    LogWith(s, a, y);
    LogWith(s, a, x);
    SameLogInMore(s, a, x, y);
    RedeemerJoins(profile, Log(s, a), invitation, x);
    RedeemerJoins(profile, Log(s, a), invitation, y);
    OnlyTheWinner(a, s, x.id, y.id);
  }

  lemma RedeemerJoins(profile: Profile, log: seq<SignedEvent>, invitation: Id, x: SignedEvent)
    requires Governance.Redeems(profile, x, invitation)
    ensures StateAfter(profile, log + [x]).members
            == StateAfter(profile, log).members + {AuthorId(profile.crypto, x)}
  {
    assert (log + [x])[..|log|] == log;
  }

  lemma OnlyTheWinner(a: seq<Id>, s: Candidates, x: Id, y: Id)
    requires AllCandidates(s, a) && y !in s && x != y
    ensures x in Elements(a + [x]) && y in Elements(a + [y]) && y !in Elements(a + [x])
  {
    assert (a + [x])[|a|] == x && (a + [y])[|a|] == y;
  }
}
