/**
 What resolving promises: the result depends on nothing but the set of candidates, the accepted log
 is an authorized causal order, rejected events have no influence, and late events disturb nothing
 that was decided before their place.
 */
module ResolverTheorems {
  import opened Wrappers
  import opened Protocol
  import opened Ordering
  import opened Chat
  import opened Causality
  import opened DecisionOrder
  import opened Resolver
  import ResolveRounds
  import Governance

  // ------------------------------------------------------------------ determinism

  lemma ResolutionIsUnique(profile: Profile, candidates: Candidates, a: seq<Id>, b: seq<Id>)
    requires IsResolution(profile, candidates, a) && IsResolution(profile, candidates, b)
    ensures a == b
  {
    KeysAreKeyed(profile, candidates);
    ResolvedIsUnique(AdmissionRule(profile, candidates), DecisionKeys(profile, candidates), a, b);
  }

  /** Accepted order, rejections with their reasons, and snapshot are functions of the candidate set. */
  lemma ResolvesIsUnique(profile: Profile, candidates: Candidates, r: ChatResolution, s: ChatResolution)
    requires Resolves(profile, candidates, r) && Resolves(profile, candidates, s)
    ensures r == s
  {
    ResolutionIsUnique(profile, candidates, r.acceptedInOrder, s.acceptedInOrder);
    assert forall x :: x in r.rejected ==> x in s.rejected && r.rejected[x] == s.rejected[x];
    assert r.rejected.Keys == s.rejected.Keys;
  }

  lemma IndexIgnoresOrder(events: seq<SignedEvent>, others: seq<SignedEvent>)
    requires ResolveRounds.NoCollisions(events) && ResolveRounds.NoCollisions(others)
    requires Elements(events) == Elements(others)
    ensures ResolveRounds.Index(events) == ResolveRounds.Index(others)
  {
    forall e
      ensures e in events <==> e in others
    {
      assert e in events <==> e in Elements(events);
      assert e in others <==> e in Elements(others);
    }
    var x, y := ResolveRounds.Index(events), ResolveRounds.Index(others);
    assert x.Keys == y.Keys;
    forall i | i in x
      ensures x[i] == y[i]
    {
      var e :| e in events && e.id == i;
    }
  }

  /** Lists with the same events, in any order and with any repetitions, resolve identically. */
  lemma ResolutionIgnoresArrivalOrder(
    profile: Profile, events: seq<SignedEvent>, others: seq<SignedEvent>, r: ChatResolution, s: ChatResolution)
    requires ResolveRounds.NoCollisions(events) && ResolveRounds.NoCollisions(others)
    requires Elements(events) == Elements(others)
    requires Resolves(profile, ResolveRounds.Index(events), r)
    requires Resolves(profile, ResolveRounds.Index(others), s)
    ensures r == s
  {
    IndexIgnoresOrder(events, others);
    ResolvesIsUnique(profile, ResolveRounds.Index(events), r, s);
  }

  // ------------------------------------------------------------------ the accepted log

  lemma PrefixLog(candidates: Candidates, ids: seq<Id>, i: nat)
    requires AllCandidates(candidates, ids) && i <= |ids|
    ensures AllCandidates(candidates, ids[..i])
    ensures Log(candidates, ids[..i]) == Log(candidates, ids)[..i]
  {
  }

  /** Replaying the accepted order authorizes every step in the state before it. */
  lemma AcceptedLogIsAuthorized(profile: Profile, candidates: Candidates, accepted: seq<Id>)
    requires IsResolution(profile, candidates, accepted)
    ensures AllCandidates(candidates, accepted)
    ensures Authorized(profile, Log(candidates, accepted))
  {
    AcceptedAreCandidates(profile, candidates, accepted);
    var log := Log(candidates, accepted);
    forall i | 0 <= i < |log|
      ensures Admissible(profile, log[..i], log[i])
    {
      AdmittedInTurn(AdmissionRule(profile, candidates), DecisionKeys(profile, candidates), accepted,
                     DecisionKeys(profile, candidates).Keys, i);
      PrefixLog(candidates, accepted, i);
    }
  }

  /** Every event that a list's resolution accepts is in the list and signed by its author. */
  lemma AcceptedEventsAreSigned(profile: Profile, events: seq<SignedEvent>, r: ChatResolution, x: Id)
    requires ResolveRounds.NoCollisions(events) && FirstFault(profile.crypto, events).None?
    requires Resolves(profile, ResolveRounds.Index(events), r) && x in r.snapshot.eventIds
    ensures exists e :: e in events && e.id == x && SignedByAuthor(profile.crypto, e)
  {
    var candidates := ResolveRounds.Index(events);
    assert x in r.acceptedInOrder;
    assert x in candidates;
    var e :| e in events && e.id == x;
    ValidIsSigned(profile.crypto, e);
  }

  /** The accepted order is parent-closed and lists every parent before its child. */
  lemma AcceptedOrderIsCausal(profile: Profile, candidates: Candidates, accepted: seq<Id>, i: nat, p: Id)
    requires Indexed(candidates) && IsResolution(profile, candidates, accepted) && i < |accepted|
    requires accepted[i] in candidates && p in Parents(candidates[accepted[i]])
    ensures p in accepted[..i]
  {
    AcceptedLogIsAuthorized(profile, candidates, accepted);
    var log := Log(candidates, accepted);
    assert Admissible(profile, log[..i], log[i]);
    PrefixLog(candidates, accepted, i);
    LogIds(candidates, accepted[..i]);
  }

  /** The decodable candidates that no round decides are exactly those on or behind a cycle. */
  lemma LeftoversAreBehindCycles(profile: Profile, candidates: Candidates, x: Id)
    requires x in GraphOf(profile, candidates)
    ensures x !in DecisionKeys(profile, candidates) <==> ReachesCycle(GraphOf(profile, candidates), x)
  {
    LeftoversReachCycles(GraphOf(profile, candidates), x);
  }

  /** Every decodable candidate parent is decided in an earlier round than its child. */
  lemma DecisionsFollowCausality(profile: Profile, candidates: Candidates, x: Id, p: Id)
    requires x in DecisionKeys(profile, candidates)
    requires p in Parents(candidates[x]) && p in GraphOf(profile, candidates)
    ensures p in DecisionKeys(profile, candidates)
    ensures DecisionKeys(profile, candidates)[p].depth < DecisionKeys(profile, candidates)[x].depth
  {
    ParentsComeFirst(GraphOf(profile, candidates), x, p);
  }

  // ------------------------------------------------------------------ the community

  predicate Founds(profile: Profile, event: SignedEvent) {
    && Decode(profile, event).Some? && Decode(profile, event).value.CommunityCreate?
    && event.content.parents == []
  }

  function Founders(profile: Profile, candidates: Candidates): set<Id> {
    set x | x in candidates && Founds(profile, candidates[x])
  }

  lemma FounderKey(profile: Profile, candidates: Candidates, x: Id)
    requires x in Founders(profile, candidates)
    ensures x in DecisionKeys(profile, candidates) && DecisionKeys(profile, candidates)[x] == Key(0, 0, x)
  {
    var g := GraphOf(profile, candidates);
    assert HasChain(g, x, 0) && !HasChain(g, x, 1);
    DepthIsUnique(g, x, 0);
  }

  lemma FirstAcceptedFounds(profile: Profile, candidates: Candidates, accepted: seq<Id>)
    requires IsResolution(profile, candidates, accepted) && accepted != []
    ensures accepted[0] in Founders(profile, candidates)
    ensures forall i :: 0 < i < |accepted| ==> accepted[i] !in Founders(profile, candidates)
  {
    AcceptedLogIsAuthorized(profile, candidates, accepted);
    var log := Log(candidates, accepted);
    Governance.GenesisLeads(profile, log);
    assert Admissible(profile, log[..0], log[0]);
  }

  /**
   The community is the least id among the parentless community-create candidates: it is accepted
   first, and it is the snapshot's community. Without one, nothing is accepted.
   */
  lemma CommunityIsLeastFounder(profile: Profile, candidates: Candidates, accepted: seq<Id>)
    requires Indexed(candidates) && IsResolution(profile, candidates, accepted)
    ensures AllCandidates(candidates, accepted)
    ensures Founders(profile, candidates) == {} <==> accepted == []
    ensures accepted != [] ==> IsLeast(accepted[0], Founders(profile, candidates))
    ensures StateAfter(profile, Log(candidates, accepted)).community
            == if accepted == [] then None else Some(accepted[0])
  {
    AcceptedLogIsAuthorized(profile, candidates, accepted);
    var founders := Founders(profile, candidates);
    if accepted != [] {
      FirstAcceptedFounds(profile, candidates, accepted);
      Governance.GenesisLeads(profile, Log(candidates, accepted));
    }
    if founders != {} {
      LeastFounderIsFirst(profile, candidates, accepted, Least(founders));
    }
  }

  lemma LeastFounderIsFirst(profile: Profile, candidates: Candidates, accepted: seq<Id>, least: Id)
    requires IsResolution(profile, candidates, accepted)
    requires IsLeast(least, Founders(profile, candidates))
    ensures accepted != [] && accepted[0] == least
  {
    var keys := DecisionKeys(profile, candidates);
    FounderKey(profile, candidates, least);
    if accepted != [] {
      FirstAcceptedFounds(profile, candidates, accepted);
      FounderKey(profile, candidates, accepted[0]);
      assert forall i :: 0 < i < |accepted| ==> Less(keys[accepted[0]], keys[accepted[i]]);
    }
    CutIs(keys, accepted, least, 0);
    assert accepted[..0] == [];
    FounderIsAdmitted(profile, candidates, least);
    assert least in accepted;
  }

  lemma FounderIsAdmitted(profile: Profile, candidates: Candidates, x: Id)
    requires x in Founders(profile, candidates)
    ensures AdmissionRule(profile, candidates)([], x)
  {
    assert Log(candidates, []) == [];
    assert StateAfter(profile, []) == EMPTY_STATE;
    assert Parents(candidates[x]) == {};
    assert Admissible(profile, [], candidates[x]);
    assert AllCandidates(candidates, []);
  }

  // ------------------------------------------------------------------ rejected events are irrelevant

  ghost predicate SubCandidates(part: Candidates, whole: Candidates) {
    forall x :: x in part ==> x in whole && part[x] == whole[x]
  }

  /** A candidate whose parents are all accepted has the same key in every set that keeps the accepted. */
  lemma KeyNeedsOnlyAccepted(profile: Profile, s: Candidates, accepted: seq<Id>, t: Candidates, x: Id)
    requires Indexed(s) && IsResolution(profile, s, accepted)
    requires SubCandidates(t, s) && Elements(accepted) <= t.Keys
    requires x in t && Parents(t[x]) <= Elements(accepted)
    ensures x in DecisionKeys(profile, s) <==> x in DecisionKeys(profile, t)
    ensures x in DecisionKeys(profile, s) ==> DecisionKeys(profile, s)[x] == DecisionKeys(profile, t)[x]
  {
    var g, h := GraphOf(profile, s), GraphOf(profile, t);
    if x in g {
      var part := Elements(accepted) + {x};
      forall y, p | y in part && p in g[y]
        ensures p in part
      {
        assert p in Parents(s[y]);
        if y != x {
          var i :| 0 <= i < |accepted| && accepted[i] == y;
          AcceptedOrderIsCausal(profile, s, accepted, i, p);
        }
      }
      DepthIsLocal(g, h, part, x);
    }
  }

  lemma AcceptedKeysAgree(profile: Profile, s: Candidates, accepted: seq<Id>, t: Candidates)
    requires Indexed(s) && IsResolution(profile, s, accepted)
    requires SubCandidates(t, s) && Elements(accepted) <= t.Keys
    ensures SortedByKey(DecisionKeys(profile, t), accepted)
    ensures forall i :: 0 <= i < |accepted| ==>
              DecisionKeys(profile, s)[accepted[i]] == DecisionKeys(profile, t)[accepted[i]]
  {
    forall i | 0 <= i < |accepted|
      ensures accepted[i] in DecisionKeys(profile, t)
              && DecisionKeys(profile, s)[accepted[i]] == DecisionKeys(profile, t)[accepted[i]]
    {
      assert accepted[i] in Elements(accepted);
      forall p | p in Parents(s[accepted[i]])
        ensures p in Elements(accepted)
      {
        AcceptedOrderIsCausal(profile, s, accepted, i, p);
      }
      KeyNeedsOnlyAccepted(profile, s, accepted, t, accepted[i]);
    }
  }

  lemma RuleIsLocal(profile: Profile, s: Candidates, t: Candidates, ids: seq<Id>, x: Id)
    requires AllCandidates(s, ids) && AllCandidates(t, ids) && x in s && x in t && s[x] == t[x]
    requires forall i :: 0 <= i < |ids| ==> s[ids[i]] == t[ids[i]]
    ensures AdmissionRule(profile, s)(ids, x) == AdmissionRule(profile, t)(ids, x)
  {
    assert Log(s, ids) == Log(t, ids);
  }

  /** What some parent keeps out is admitted after no part of the accepted order. */
  lemma KeptOutByParent(profile: Profile, t: Candidates, ids: seq<Id>, x: Id, p: Id)
    requires Indexed(t) && x in t && p in Parents(t[x]) && p !in ids
    ensures !AdmissionRule(profile, t)(ids, x)
  {
    if AllCandidates(t, ids) {
      LogIds(t, ids);
    }
  }

  lemma AcceptedParents(profile: Profile, s: Candidates, accepted: seq<Id>, x: Id)
    requires Indexed(s) && IsResolution(profile, s, accepted) && x in accepted && x in s
    ensures Parents(s[x]) <= Elements(accepted)
  {
    var i :| 0 <= i < |accepted| && accepted[i] == x;
    forall p | p in Parents(s[x])
      ensures p in Elements(accepted)
    {
      AcceptedOrderIsCausal(profile, s, accepted, i, p);
    }
  }

  lemma KeptOutBefore(profile: Profile, t: Candidates, accepted: seq<Id>, x: Id, p: Id)
    requires SortedByKey(DecisionKeys(profile, t), accepted) && x in DecisionKeys(profile, t) && x in t
    requires Indexed(t) && p in Parents(t[x]) && p !in Elements(accepted)
    ensures !AdmissionRule(profile, t)(Before(DecisionKeys(profile, t), accepted, x), x)
  {
    var before := Before(DecisionKeys(profile, t), accepted, x);
    assert forall i :: 0 <= i < |before| ==> before[i] == accepted[i];
    KeptOutByParent(profile, t, before, x, p);
  }

  /** A candidate of the smaller set is accepted there by the same test as in the larger one. */
  lemma SameVerdict(profile: Profile, s: Candidates, accepted: seq<Id>, t: Candidates, x: Id)
    requires Indexed(s) && IsResolution(profile, s, accepted)
    requires SubCandidates(t, s) && Elements(accepted) <= t.Keys
    requires SortedByKey(DecisionKeys(profile, t), accepted) && x in DecisionKeys(profile, t)
    requires forall i :: 0 <= i < |accepted| ==>
              DecisionKeys(profile, s)[accepted[i]] == DecisionKeys(profile, t)[accepted[i]]
    ensures x in accepted <==> AdmissionRule(profile, t)(Before(DecisionKeys(profile, t), accepted, x), x)
  {
    KeysAreKeyed(profile, t);
    if p :| p in Parents(t[x]) && p !in Elements(accepted) {
      if x in accepted {
        AcceptedParents(profile, s, accepted, x);
      }
      KeptOutBefore(profile, t, accepted, x, p);
    } else {
      KeyNeedsOnlyAccepted(profile, s, accepted, t, x);
      SameVerdictAtSameKey(profile, s, accepted, t, x);
    }
  }

  lemma SameVerdictAtSameKey(profile: Profile, s: Candidates, accepted: seq<Id>, t: Candidates, x: Id)
    requires IsResolution(profile, s, accepted) && SubCandidates(t, s)
    requires x in DecisionKeys(profile, s) && x in DecisionKeys(profile, t)
    requires DecisionKeys(profile, s)[x] == DecisionKeys(profile, t)[x]
    requires SortedByKey(DecisionKeys(profile, t), accepted)
    requires forall i :: 0 <= i < |accepted| ==>
              DecisionKeys(profile, s)[accepted[i]] == DecisionKeys(profile, t)[accepted[i]]
    ensures x in accepted <==> AdmissionRule(profile, t)(Before(DecisionKeys(profile, t), accepted, x), x)
  {
    var before := Before(DecisionKeys(profile, t), accepted, x);
    CutIs(DecisionKeys(profile, s), accepted, x, |before|);
    AcceptedAreCandidates(profile, s, accepted);
    AcceptedAreCandidates(profile, t, accepted);
    KeysAreKeyed(profile, t);
    RuleIsLocal(profile, s, t, before, x);
  }

  /**
   Dropping any of the rejected events from the candidate set, or all of them, changes neither the
   accepted order nor the state it leads to.
   */
  lemma RejectedEventsAreIrrelevant(profile: Profile, s: Candidates, accepted: seq<Id>, t: Candidates)
    requires Indexed(s) && IsResolution(profile, s, accepted)
    requires SubCandidates(t, s) && Elements(accepted) <= t.Keys
    ensures IsResolution(profile, t, accepted)
    ensures AllCandidates(s, accepted) && AllCandidates(t, accepted)
    ensures Log(t, accepted) == Log(s, accepted)
  {
    AcceptedKeysAgree(profile, s, accepted, t);
    AcceptedAreCandidates(profile, t, accepted);
    AcceptedAreCandidates(profile, s, accepted);
    forall x | x in DecisionKeys(profile, t)
      ensures x in accepted <==> AdmissionRule(profile, t)(Before(DecisionKeys(profile, t), accepted, x), x)
    {
      SameVerdict(profile, s, accepted, t, x);
    }
    assert Log(t, accepted) == Log(s, accepted);
  }

  /** So every set between the accepted events and the candidates has the same order and snapshot. */
  lemma RejectedEventsKeepTheSnapshot(
    profile: Profile, s: Candidates, r: ChatResolution, t: Candidates, q: ChatResolution)
    requires Indexed(s) && Resolves(profile, s, r)
    requires SubCandidates(t, s) && Elements(r.acceptedInOrder) <= t.Keys
    requires Resolves(profile, t, q)
    ensures q.acceptedInOrder == r.acceptedInOrder && q.snapshot == r.snapshot
  {
    RejectedEventsAreIrrelevant(profile, s, r.acceptedInOrder, t);
    ResolutionIsUnique(profile, t, q.acceptedInOrder, r.acceptedInOrder);
  }

  /** Resolving the accepted events alone accepts them all, in the same order, with the same snapshot. */
  lemma AcceptedEventsAreAFixedPoint(
    profile: Profile, s: Candidates, r: ChatResolution, t: Candidates, q: ChatResolution)
    requires Indexed(s) && Resolves(profile, s, r)
    requires SubCandidates(t, s) && t.Keys == Elements(r.acceptedInOrder)
    requires Resolves(profile, t, q)
    ensures q.acceptedInOrder == r.acceptedInOrder && q.snapshot == r.snapshot
    ensures q.rejected == map[]
  {
    RejectedEventsAreIrrelevant(profile, s, r.acceptedInOrder, t);
    ResolutionIsUnique(profile, t, q.acceptedInOrder, r.acceptedInOrder);
    assert q.rejected.Keys == {};
  }

  // ------------------------------------------------------------------ late arrivals

  /** `event` is new and no candidate names it as a parent. */
  ghost predicate ArrivesLate(candidates: Candidates, event: SignedEvent) {
    && Indexed(candidates)
    && event.id !in candidates
    && forall x :: x in candidates ==> event.id !in Parents(candidates[x])
  }

  /** A late event leaves every existing decision key as it was. */
  lemma LateKeepsKeys(profile: Profile, s: Candidates, event: SignedEvent, x: Id)
    requires ArrivesLate(s, event) && x in s
    ensures x in DecisionKeys(profile, s) <==> x in DecisionKeys(profile, With(s, event))
    ensures x in DecisionKeys(profile, s) ==>
              DecisionKeys(profile, s)[x] == DecisionKeys(profile, With(s, event))[x]
  {
    var t := s[event.id := event];
    var g, h := GraphOf(profile, s), GraphOf(profile, t);
    if x in g {
      forall y, p | y in g && p in g[y]
        ensures p in g || (p !in g && p !in h)
      {
        assert p in Parents(s[y]);
      }
      DepthIsLocal(g, h, g.Keys, x);
    }
  }

  /** The candidate set with one event more. */
  function With(s: Candidates, event: SignedEvent): Candidates {
    s[event.id := event]
  }

  lemma LateKeepsAllKeys(profile: Profile, s: Candidates, event: SignedEvent)
    requires ArrivesLate(s, event)
    ensures AddsAtMost(DecisionKeys(profile, s), DecisionKeys(profile, With(s, event)), event.id)
  {
    forall x | x in s
      ensures x in DecisionKeys(profile, s) <==> x in DecisionKeys(profile, With(s, event))
      ensures x in DecisionKeys(profile, s) ==>
                DecisionKeys(profile, s)[x] == DecisionKeys(profile, With(s, event))[x]
    {
      LateKeepsKeys(profile, s, event, x);
    }
  }

  /** The existing candidates decided before the late event; all of them if it is never decided. */
  ghost function DecidedBefore(profile: Profile, s: Candidates, event: SignedEvent): set<Id>
    requires ArrivesLate(s, event)
  {
    LateKeepsAllKeys(profile, s, event);
    OldBefore(DecisionKeys(profile, s), DecisionKeys(profile, With(s, event)), event.id)
  }

  lemma LateKeepsRules(profile: Profile, s: Candidates, event: SignedEvent, segment: set<Id>)
    requires ArrivesLate(s, event) && segment <= s.Keys
    ensures RulesAgree(AdmissionRule(profile, s), AdmissionRule(profile, With(s, event)), segment)
  {
    forall ids, x | Within(ids, segment) && x in segment
      ensures AdmissionRule(profile, s)(ids, x) == AdmissionRule(profile, With(s, event))(ids, x)
    {
      RuleIsLocal(profile, s, With(s, event), ids, x);
    }
  }

  lemma LateSegmentAgrees(profile: Profile, s: Candidates, event: SignedEvent, a: seq<Id>, b: seq<Id>)
    requires ArrivesLate(s, event)
    requires IsResolution(profile, s, a) && IsResolution(profile, With(s, event), b)
    ensures Agreeing(DecidedBefore(profile, s, event),
                     AdmissionRule(profile, s), DecisionKeys(profile, s), a,
                     AdmissionRule(profile, With(s, event)), DecisionKeys(profile, With(s, event)), b)
  {
    LateKeepsAllKeys(profile, s, event);
    OldBeforeIsInitial(DecisionKeys(profile, s), DecisionKeys(profile, With(s, event)), event.id);
    KeysAreKeyed(profile, s);
    KeysAreKeyed(profile, With(s, event));
    LateKeepsRules(profile, s, event, DecidedBefore(profile, s, event));
  }

  /**
   Late-arrival stability. Adding an event that no candidate names as a parent leaves the accepted
   order before the new event's place as it was: both resolutions start with the same accepted
   events, and each continues only with candidates that are not before it.
   */
  lemma LateArrivalKeepsThePast(profile: Profile, s: Candidates, event: SignedEvent, a: seq<Id>, b: seq<Id>)
    returns (n: nat)
    requires ArrivesLate(s, event)
    requires IsResolution(profile, s, a) && IsResolution(profile, With(s, event), b)
    ensures SharedLead(DecidedBefore(profile, s, event), a, b, n)
    ensures event.id !in DecisionKeys(profile, With(s, event)) ==> a == b
  {
    var segment := DecidedBefore(profile, s, event);
    LateSegmentAgrees(profile, s, event, a, b);
    MatchFrom(segment, AdmissionRule(profile, s), DecisionKeys(profile, s), a,
              AdmissionRule(profile, With(s, event)), DecisionKeys(profile, With(s, event)), b, 0);
    n :| SharedLead(segment, a, b, n);
    if event.id !in DecisionKeys(profile, With(s, event)) {
      UnkeyedChangesNothing(profile, s, event, a, b);
    }
  }

  /** And the state reached by then is the same. */
  lemma LateArrivalKeepsTheState(profile: Profile, s: Candidates, event: SignedEvent, a: seq<Id>, b: seq<Id>)
    returns (n: nat)
    requires ArrivesLate(s, event)
    requires IsResolution(profile, s, a) && IsResolution(profile, With(s, event), b)
    ensures SharedLead(DecidedBefore(profile, s, event), a, b, n)
    ensures AllCandidates(s, a[..n]) && AllCandidates(With(s, event), b[..n])
    ensures StateAfter(profile, Log(s, a[..n])) == StateAfter(profile, Log(With(s, event), b[..n]))
  {
    n := LateArrivalKeepsThePast(profile, s, event, a, b);
    AcceptedAreCandidates(profile, s, a);
    assert Log(s, a[..n]) == Log(With(s, event), b[..n]);
  }

  lemma UnkeyedChangesNothing(profile: Profile, s: Candidates, event: SignedEvent, a: seq<Id>, b: seq<Id>)
    requires ArrivesLate(s, event)
    requires IsResolution(profile, s, a) && IsResolution(profile, With(s, event), b)
    requires event.id !in DecisionKeys(profile, With(s, event))
    ensures a == b
  {
    var k, l := DecisionKeys(profile, s), DecisionKeys(profile, With(s, event));
    LateSegmentAgrees(profile, s, event, a, b);
    LateKeepsAllKeys(profile, s, event);
    SameKeys(k, l, event.id);
    NothingNew(AdmissionRule(profile, s), k, a, AdmissionRule(profile, With(s, event)), b);
  }

  lemma SameKeys(k: Keys, l: Keys, n: Id)
    requires AddsAtMost(k, l, n) && n !in l
    ensures k == l && OldBefore(k, l, n) == k.Keys
  {
    assert k.Keys == l.Keys;
  }

  /**
   Every existing candidate before the new event's place keeps its decision, and its reason if it
   was rejected; so do the candidates no round decides.
   */
  lemma LateArrivalKeepsDecisions(
    profile: Profile, s: Candidates, event: SignedEvent, a: seq<Id>, b: seq<Id>, x: Id)
    requires ArrivesLate(s, event)
    requires IsResolution(profile, s, a) && IsResolution(profile, With(s, event), b)
    requires x in s && (x in DecidedBefore(profile, s, event) || x !in DecisionKeys(profile, s))
    ensures x in a <==> x in b
    ensures Reason(profile, s, a, x) == Reason(profile, With(s, event), b, x)
  {
    if x in DecidedBefore(profile, s, event) {
      EarlierIsJudgedAlike(profile, s, event, a, b, x);
      SameParentsAccepted(profile, s, event, a, b, x);
      EarlierKeepsItsReason(profile, s, With(s, event), a, b, x);
    } else {
      LateKeepsKeys(profile, s, event, x);
      SameReason(profile, s, With(s, event), a, b, x);
    }
  }

  lemma EarlierKeepsItsReason(profile: Profile, s: Candidates, t: Candidates, a: seq<Id>, b: seq<Id>, x: Id)
    requires SortedByKey(DecisionKeys(profile, s), a) && SortedByKey(DecisionKeys(profile, t), b)
    requires x in DecisionKeys(profile, s) && x in DecisionKeys(profile, t)
    requires Before(DecisionKeys(profile, s), a, x) == Before(DecisionKeys(profile, t), b, x)
    requires x in s && forall y :: y in s ==> y in t && s[y] == t[y]
    requires Parents(s[x]) <= s.Keys <==> Parents(s[x]) <= t.Keys
    requires Parents(s[x]) <= Elements(a) <==> Parents(s[x]) <= Elements(b)
    ensures Reason(profile, s, a, x) == Reason(profile, t, b, x)
  {
    SameLogBefore(profile, s, t, a, b, x);
    SameReason(profile, s, t, a, b, x);
  }

  lemma EarlierIsJudgedAlike(
    profile: Profile, s: Candidates, event: SignedEvent, a: seq<Id>, b: seq<Id>, x: Id)
    requires ArrivesLate(s, event)
    requires IsResolution(profile, s, a) && IsResolution(profile, With(s, event), b)
    requires x in DecidedBefore(profile, s, event)
    ensures x in a <==> x in b
    ensures x in DecisionKeys(profile, With(s, event))
    ensures Before(DecisionKeys(profile, s), a, x) == Before(DecisionKeys(profile, With(s, event)), b, x)
  {
    LateKeepsAllKeys(profile, s, event);
    LateSegmentAgrees(profile, s, event, a, b);
    SegmentJudgedAlike(DecidedBefore(profile, s, event),
                       AdmissionRule(profile, s), DecisionKeys(profile, s), a,
                       AdmissionRule(profile, With(s, event)), DecisionKeys(profile, With(s, event)), b, x);
  }

  lemma SameReason(profile: Profile, s: Candidates, t: Candidates, a: seq<Id>, b: seq<Id>, x: Id)
    requires SortedByKey(DecisionKeys(profile, s), a) && SortedByKey(DecisionKeys(profile, t), b)
    requires x in s && x in t && s[x] == t[x]
    requires x in DecisionKeys(profile, s) <==> x in DecisionKeys(profile, t)
    requires x in DecisionKeys(profile, s) ==>
               && (Parents(s[x]) <= s.Keys <==> Parents(s[x]) <= t.Keys)
               && (Parents(s[x]) <= Elements(a) <==> Parents(s[x]) <= Elements(b))
               && LogBefore(profile, s, a, x) == LogBefore(profile, t, b, x)
    ensures Reason(profile, s, a, x) == Reason(profile, t, b, x)
  {
  }

  lemma SameLogBefore(profile: Profile, s: Candidates, t: Candidates, a: seq<Id>, b: seq<Id>, x: Id)
    requires SortedByKey(DecisionKeys(profile, s), a) && SortedByKey(DecisionKeys(profile, t), b)
    requires x in DecisionKeys(profile, s) && x in DecisionKeys(profile, t)
    requires Before(DecisionKeys(profile, s), a, x) == Before(DecisionKeys(profile, t), b, x)
    requires forall y :: y in s ==> y in t && s[y] == t[y]
    ensures LogBefore(profile, s, a, x) == LogBefore(profile, t, b, x)
  {
    AcceptedAreCandidates(profile, s, a);
    var ids := Before(DecisionKeys(profile, s), a, x);
    assert forall i :: 0 <= i < |ids| ==> ids[i] == a[i];
  }

  lemma ParentDecidedBefore(profile: Profile, s: Candidates, event: SignedEvent, x: Id, p: Id)
    requires ArrivesLate(s, event)
    requires x in DecidedBefore(profile, s, event) && p in Parents(s[x]) && p in GraphOf(profile, s)
    ensures p in DecidedBefore(profile, s, event)
  {
    ParentsComeFirst(GraphOf(profile, s), x, p);
    LateKeepsAllKeys(profile, s, event);
  }

  lemma ParentAcceptedAlike(
    profile: Profile, s: Candidates, event: SignedEvent, a: seq<Id>, b: seq<Id>, x: Id, p: Id)
    requires ArrivesLate(s, event)
    requires IsResolution(profile, s, a) && IsResolution(profile, With(s, event), b)
    requires x in DecidedBefore(profile, s, event) && p in Parents(s[x])
    ensures p in a <==> p in b
  {
    if p in GraphOf(profile, s) {
      ParentDecidedBefore(profile, s, event, x, p);
      LateSegmentAgrees(profile, s, event, a, b);
      SegmentJudgedAlike(DecidedBefore(profile, s, event),
                         AdmissionRule(profile, s), DecisionKeys(profile, s), a,
                         AdmissionRule(profile, With(s, event)), DecisionKeys(profile, With(s, event)), b, p);
    } else {
      assert p !in DecisionKeys(profile, s) && p !in DecisionKeys(profile, With(s, event));
    }
  }

  lemma SameParentsAccepted(
    profile: Profile, s: Candidates, event: SignedEvent, a: seq<Id>, b: seq<Id>, x: Id)
    requires ArrivesLate(s, event)
    requires IsResolution(profile, s, a) && IsResolution(profile, With(s, event), b)
    requires x in DecidedBefore(profile, s, event)
    ensures Parents(s[x]) <= s.Keys <==> Parents(s[x]) <= With(s, event).Keys
    ensures Parents(s[x]) <= Elements(a) <==> Parents(s[x]) <= Elements(b)
  {
    forall p | p in Parents(s[x])
      ensures p in Elements(a) <==> p in Elements(b)
    {
      ParentAcceptedAlike(profile, s, event, a, b, x, p);
    }
  }

  // ------------------------------------------------------------------ an event decided last

  /** A late event whose key is greater than every other is judged after the whole accepted log. */
  lemma LastArrivalExtends(profile: Profile, s: Candidates, event: SignedEvent, a: seq<Id>)
    requires ArrivesLate(s, event) && IsResolution(profile, s, a)
    requires event.id in DecisionKeys(profile, With(s, event))
    requires DecidedBefore(profile, s, event) == DecisionKeys(profile, s).Keys
    ensures AllCandidates(s, a)
    ensures IsResolution(profile, With(s, event),
                         if Admissible(profile, Log(s, a), event) then a + [event.id] else a)
  {
    var t := With(s, event);
    var k, l := DecisionKeys(profile, s), DecisionKeys(profile, t);
    AcceptedAreCandidates(profile, s, a);
    LateKeepsAllKeys(profile, s, event);
    OldResolutionStands(profile, s, event, a);
    NewComesNext(k, l, event.id);
    DecideNext(AdmissionRule(profile, t), l, a, k.Keys, event.id);
    RuleForNew(profile, s, event, a);
  }

  lemma NewComesNext(k: Keys, l: Keys, n: Id)
    requires AddsAtMost(k, l, n) && n in l && OldBefore(k, l, n) == k.Keys
    ensures ComesNext(l, k.Keys, n) && k.Keys + {n} == l.Keys
  {
    assert forall d :: d in k.Keys ==> d in OldBefore(k, l, n);
  }

  lemma RuleForNew(profile: Profile, s: Candidates, event: SignedEvent, a: seq<Id>)
    requires event.id !in s && AllCandidates(s, a)
    ensures AdmissionRule(profile, With(s, event))(a, event.id) == Admissible(profile, Log(s, a), event)
  {
    assert AllCandidates(With(s, event), a);
    assert Log(s, a) == Log(With(s, event), a);
  }

  lemma OldResolutionStands(profile: Profile, s: Candidates, event: SignedEvent, a: seq<Id>)
    requires ArrivesLate(s, event) && IsResolution(profile, s, a)
    ensures ResolvedOn(AdmissionRule(profile, With(s, event)), DecisionKeys(profile, With(s, event)), a,
                       DecisionKeys(profile, s).Keys)
  {
    var k, l := DecisionKeys(profile, s), DecisionKeys(profile, With(s, event));
    LateKeepsAllKeys(profile, s, event);
    KeysAreKeyed(profile, s);
    assert SortedByKey(l, a);
    LateKeepsRules(profile, s, event, k.Keys);
    SameResolution(AdmissionRule(profile, s), k, AdmissionRule(profile, With(s, event)), l, a);
  }

  lemma SameResolution(r: Rule, k: Keys, s: Rule, l: Keys, a: seq<Id>)
    requires Resolved(r, k, a) && k.Keys <= l.Keys && RulesAgree(r, s, k.Keys)
    requires forall x :: x in k ==> k[x] == l[x]
    ensures ResolvedOn(s, l, a, k.Keys)
  {
    assert SortedByKey(l, a);
    forall x | x in k
      ensures x in a <==> s(Before(l, a, x), x)
    {
      SameBefore(k, l, a, k.Keys, x);
      assert Within(Before(k, a, x), k.Keys);
    }
  }
}
