/**
 The order within one round, in payload kinds, and what becomes of two events authored on the same
 heads: the one that comes first stands, and the other is judged in the state it leaves.
 */
module RoundOrder {
  import opened Wrappers
  import opened Protocol
  import opened Ordering
  import opened Chat
  import opened Causality
  import opened DecisionOrder
  import opened Resolver
  import opened ResolverTheorems
  import opened Authoring
  import opened Authority
  import Closure

  // ------------------------------------------------------------------ which event of a round comes first

  predicate Founding(profile: Profile, event: SignedEvent) {
    match Decode(profile, event)
    case Some(CommunityCreate(_, _)) => true
    case _ => false
  }

  /** A member is removed, or an administrator revoked. */
  predicate Severing(profile: Profile, event: SignedEvent) {
    match Decode(profile, event)
    case Some(MemberRemove(_)) => true
    case Some(AdministratorRevoke(_)) => true
    case _ => false
  }

  /** Foundings first, then removals and revocations, then the rest; by id among the like. */
  predicate Precedes(profile: Profile, x: SignedEvent, y: SignedEvent) {
    if Founding(profile, x) != Founding(profile, y) then Founding(profile, x)
    else if Severing(profile, x) != Severing(profile, y) then Severing(profile, x)
    else x.id < y.id
  }

  /** Of two decided candidates the one with fewer ancestors in a row comes first, then as `Precedes` says. */
  lemma KeysFollowKinds(profile: Profile, s: Candidates, x: Id, y: Id)
    requires Indexed(s) && x in DecisionKeys(profile, s) && y in DecisionKeys(profile, s)
    ensures var g, keys := GraphOf(profile, s), DecisionKeys(profile, s);
            Less(keys[x], keys[y]) <==>
              Depth(g, x) < Depth(g, y) || (Depth(g, x) == Depth(g, y) && Precedes(profile, s[x], s[y]))
  {
  }

  /** So the accepted order is by depth, and within a depth by kind and id. */
  lemma AcceptedFollowKinds(profile: Profile, s: Candidates, accepted: seq<Id>, i: nat, j: nat)
    requires Indexed(s) && IsResolution(profile, s, accepted) && i < |accepted| && j < |accepted| && i != j
    ensures AllCandidates(s, accepted)
    ensures var g := GraphOf(profile, s);
            && Causality.Settled(g, accepted[i]) && Causality.Settled(g, accepted[j])
            && (i < j <==>
                 || Depth(g, accepted[i]) < Depth(g, accepted[j])
                 || (Depth(g, accepted[i]) == Depth(g, accepted[j])
                     && Precedes(profile, s[accepted[i]], s[accepted[j]])))
  {
    AcceptedAreCandidates(profile, s, accepted);
    var keys := DecisionKeys(profile, s);
    assert accepted[i] in keys && accepted[j] in keys;
    KeysFollowKinds(profile, s, accepted[i], accepted[j]);
    KeysFollowKinds(profile, s, accepted[j], accepted[i]);
    assert i < j ==> Less(keys[accepted[i]], keys[accepted[j]]);
    assert j < i ==> Less(keys[accepted[j]], keys[accepted[i]]);
  }

  // ------------------------------------------------------------------ same parents, same depth

  lemma ChainsAlike(g: Graph, x: Id, y: Id, k: nat)
    requires x in g && y in g && Elements(g[x]) == Elements(g[y])
    ensures HasChain(g, x, k) <==> HasChain(g, y, k)
  {
    assert forall p :: p in g[x] <==> p in Elements(g[x]);
    assert forall p :: p in g[y] <==> p in Elements(g[y]);
  }

  lemma SameParentsSameDepth(g: Graph, x: Id, y: Id)
    requires Causality.Settled(g, x) && Causality.Settled(g, y) && Elements(g[x]) == Elements(g[y])
    ensures Depth(g, x) == Depth(g, y)
  {
    var d := Depth(g, x);
    ChainsAlike(g, x, y, d);
    ChainsAlike(g, x, y, d + 1);
    DepthIsUnique(g, y, d);
  }

  /** Events on the same parents are decided in the same round. */
  lemma SameParentsSameRound(profile: Profile, t: Candidates, x: Id, y: Id)
    requires x in DecisionKeys(profile, t) && y in DecisionKeys(profile, t)
    requires Parents(t[x]) == Parents(t[y])
    ensures DecisionKeys(profile, t)[x].depth == DecisionKeys(profile, t)[y].depth
  {
    var g := GraphOf(profile, t);
    assert Elements(g[x]) == Parents(t[x]) && Elements(g[y]) == Parents(t[y]);
    SameParentsSameDepth(g, x, y);
  }

  // ------------------------------------------------------------------ two events on the same heads

  /** Everything known is accepted up to its heads, and either event would be accepted on top of it. */
  ghost predicate Contenders(profile: Profile, s: Candidates, a: seq<Id>, x: SignedEvent, y: SignedEvent) {
    && Indexed(s) && Closure.Grounded(s, s.Keys) && IsResolution(profile, s, a) && Heads(s) <= Elements(a)
    && AllCandidates(s, a)
    && x.id !in s && y.id !in s && x.id != y.id
    && Parents(x) == Heads(s) && Parents(y) == Heads(s)
    && Admissible(profile, Log(s, a), x) && Admissible(profile, Log(s, a), y)
  }

  /** Alone, either is accepted. */
  lemma EitherAlone(profile: Profile, s: Candidates, a: seq<Id>, x: SignedEvent, y: SignedEvent)
    requires Contenders(profile, s, a, x, y)
    ensures Elements(a) == s.Keys
    ensures IsResolution(profile, With(s, x), a + [x.id]) && IsResolution(profile, With(s, y), a + [y.id])
  {
    AuthoringExtends(profile, s, x, a);
    AuthoringExtends(profile, s, y, a);
  }

  lemma LogWith(s: Candidates, a: seq<Id>, x: SignedEvent)
    requires AllCandidates(s, a) && x.id !in s
    ensures AllCandidates(With(s, x), a + [x.id]) && Log(With(s, x), a + [x.id]) == Log(s, a) + [x]
  {
  }

  lemma NobodyNamesTheSecond(s: Candidates, x: SignedEvent, y: SignedEvent)
    requires Indexed(s) && Closure.Grounded(s, s.Keys) && Parents(x) <= s.Keys
    requires x.id !in s && y.id !in s && x.id != y.id
    ensures ArrivesLate(With(s, x), y)
  {
    Closure.GroundedHoldsParents(s, s.Keys);
  }

  /** The second is decided after everything known and after the first. */
  lemma SecondComesLast(profile: Profile, s: Candidates, x: SignedEvent, y: SignedEvent, keys: Keys)
    requires Indexed(s) && Closure.Grounded(s, s.Keys) && x.id !in s && y.id !in s && x.id != y.id
    requires Parents(x) == Heads(s) && Parents(y) == Heads(s) && Precedes(profile, x, y)
    requires ArrivesLate(With(s, x), y) && keys == DecisionKeys(profile, With(With(s, x), y))
    requires DecisionKeys(profile, With(s, x)).Keys == With(s, x).Keys && y.id in keys
    ensures With(s, x).Keys <= keys.Keys
    ensures forall z :: z in With(s, x) ==> Less(keys[z], keys[y.id])
  {
    var t := With(s, x);
    KeysDeepen(profile, t, y);
    OldComeEarlier(s, t, x, y, keys);
    FirstComesFirst(profile, With(t, y), x, y);
  }

  lemma OldComeEarlier(s: Candidates, t: Candidates, x: SignedEvent, y: SignedEvent, keys: Keys)
    requires Closure.Grounded(s, s.Keys) && x.id !in s && t == With(s, x) && y.id !in t && Parents(y) == Heads(s)
    requires Deepening(t, With(t, y), keys) && y.id in keys
    ensures forall z :: z in s ==> z in keys && keys[z].depth < keys[y.id].depth
  {
    OldRowsDeepen(t, y, keys);
    OldStillDeepen(s, t, x, keys);
    HeadsAreDeepest(s, keys, keys[y.id].depth);
  }

  lemma FirstComesFirst(profile: Profile, u: Candidates, x: SignedEvent, y: SignedEvent)
    requires Indexed(u) && x.id in DecisionKeys(profile, u) && y.id in DecisionKeys(profile, u)
    requires u[x.id] == x && u[y.id] == y && Parents(x) == Parents(y) && Precedes(profile, x, y)
    ensures Less(DecisionKeys(profile, u)[x.id], DecisionKeys(profile, u)[y.id])
  {
    SameParentsSameRound(profile, u, x.id, y.id);
    KeysFollowKinds(profile, u, x.id, y.id);
  }

  lemma OldStillDeepen(s: Candidates, t: Candidates, x: SignedEvent, keys: Keys)
    requires t == With(s, x) && x.id !in s && t.Keys <= keys.Keys
    requires forall i, p :: i in t && p in Parents(t[i]) && p in t ==> keys[p].depth < keys[i].depth
    ensures forall i, p :: i in s && p in Parents(s[i]) && p in s ==> keys[p].depth < keys[i].depth
  {
    forall i, p | i in s && p in Parents(s[i]) && p in s
      ensures keys[p].depth < keys[i].depth
    {
      assert t[i] == s[i] && p in t;
    }
  }

  lemma SecondIsLast(profile: Profile, s: Candidates, a: seq<Id>, x: SignedEvent, y: SignedEvent)
    requires Contenders(profile, s, a, x, y) && Precedes(profile, x, y)
    requires Elements(a) == s.Keys && IsResolution(profile, With(s, x), a + [x.id])
    ensures ArrivesLate(With(s, x), y) && y.id in DecisionKeys(profile, With(With(s, x), y))
    ensures DecidedBefore(profile, With(s, x), y) == DecisionKeys(profile, With(s, x)).Keys
  {
    var t := With(s, x);
    FirstIsComplete(profile, s, a, x);
    NobodyNamesTheSecond(s, x, y);
    AuthoredIsKeyed(profile, t, y);
    SecondComesLast(profile, s, x, y, DecisionKeys(profile, With(t, y)));
    AllComeBefore(profile, t, y, DecisionKeys(profile, With(t, y)));
  }

  lemma AllComeBefore(profile: Profile, t: Candidates, y: SignedEvent, keys: Keys)
    requires ArrivesLate(t, y) && DecisionKeys(profile, t).Keys == t.Keys && keys == DecisionKeys(profile, With(t, y))
    requires y.id in keys && t.Keys <= keys.Keys && forall z :: z in t ==> Less(keys[z], keys[y.id])
    ensures DecidedBefore(profile, t, y) == DecisionKeys(profile, t).Keys
  {
    LateKeepsAllKeys(profile, t, y);
  }

  lemma KeysWith(s: Candidates, a: seq<Id>, x: SignedEvent)
    requires Elements(a) == s.Keys
    ensures Elements(a + [x.id]) == With(s, x).Keys
  {
    assert Elements(a + [x.id]) == Elements(a) + {x.id};
  }

  lemma FirstIsComplete(profile: Profile, s: Candidates, a: seq<Id>, x: SignedEvent)
    requires IsResolution(profile, With(s, x), a + [x.id]) && Elements(a) == s.Keys
    ensures DecisionKeys(profile, With(s, x)).Keys == With(s, x).Keys
  {
    KeysWith(s, a, x);
    EverythingIsKeyed(profile, With(s, x), a + [x.id]);
  }

  /** Together, the first stands, and the second is accepted exactly when it may follow the first. */
  lemma FirstStands(profile: Profile, s: Candidates, a: seq<Id>, x: SignedEvent, y: SignedEvent)
    requires Contenders(profile, s, a, x, y) && Precedes(profile, x, y)
    ensures IsResolution(profile, With(With(s, x), y),
                         if Admissible(profile, Log(s, a) + [x], y) then a + [x.id] + [y.id] else a + [x.id])
  {
    EitherAlone(profile, s, a, x, y);
    SecondIsLast(profile, s, a, x, y);
    LastArrivalExtends(profile, With(s, x), y, a + [x.id]);
    LogWith(s, a, x);
  }

  // ------------------------------------------------------------------ the verdict on the second

  lemma SameLogInMore(s: Candidates, a: seq<Id>, x: SignedEvent, y: SignedEvent)
    requires AllCandidates(s, a) && x.id !in s && y.id !in s && x.id != y.id
    ensures AllCandidates(With(With(s, x), y), a + [x.id])
    ensures Log(With(With(s, x), y), a + [x.id]) == Log(s, a) + [x]
  {
  }

  lemma AllBefore(keys: Keys, accepted: seq<Id>, y: Id)
    requires SortedByKey(keys, accepted) && y in keys
    requires forall i :: 0 <= i < |accepted| ==> Less(keys[accepted[i]], keys[y])
    ensures Before(keys, accepted, y) == accepted
  {
    CutIs(keys, accepted, y, |accepted|);
  }

  /** The second is judged in the state after the first. */
  lemma SecondSeesFirst(profile: Profile, s: Candidates, a: seq<Id>, x: SignedEvent, y: SignedEvent)
    requires Contenders(profile, s, a, x, y) && Precedes(profile, x, y)
    requires IsResolution(profile, With(With(s, x), y), a + [x.id])
    ensures y.id in DecisionKeys(profile, With(With(s, x), y))
    ensures LogBefore(profile, With(With(s, x), y), a + [x.id], y.id) == Log(s, a) + [x]
  {
    var t := With(s, x);
    var u := With(t, y);
    EitherAlone(profile, s, a, x, y);
    SecondIsLast(profile, s, a, x, y);
    SameLogInMore(s, a, x, y);
    SeesAll(profile, t, y, a + [x.id]);
  }

  lemma SeesAll(profile: Profile, t: Candidates, y: SignedEvent, accepted: seq<Id>)
    requires ArrivesLate(t, y)
    requires SortedByKey(DecisionKeys(profile, t), accepted) && y.id in DecisionKeys(profile, With(t, y))
    requires SortedByKey(DecisionKeys(profile, With(t, y)), accepted)
    requires DecidedBefore(profile, t, y) == DecisionKeys(profile, t).Keys
    ensures Before(DecisionKeys(profile, With(t, y)), accepted, y.id) == accepted
  {
    var keys := DecisionKeys(profile, With(t, y));
    forall i | 0 <= i < |accepted|
      ensures Less(keys[accepted[i]], keys[y.id])
    {
      assert accepted[i] in DecidedBefore(profile, t, y);
    }
    AllBefore(keys, accepted, y.id);
  }

  lemma ParentsAreAccepted(s: Candidates, a: seq<Id>, x: SignedEvent, y: SignedEvent)
    requires Elements(a) == s.Keys && Parents(y) <= s.Keys && x.id != y.id
    ensures forall p :: p in y.content.parents ==> p in With(With(s, x), y) && p in a + [x.id]
  {
    assert forall p :: p in y.content.parents ==> p in Parents(y) && p in Elements(a);
  }

  /** A candidate whose parents are accepted is judged by the state before it. */
  lemma ObjectedByState(profile: Profile, u: Candidates, accepted: seq<Id>, y: Id, reason: RejectionReason)
    requires IsResolution(profile, u, accepted) && y in DecisionKeys(profile, u)
    requires forall p :: p in u[y].content.parents ==> p in u && p in accepted
    ensures Objected(profile, u, accepted, y, reason) <==>
              Objects(profile.crypto, StateBefore(profile, u, accepted, y), u[y], Decode(profile, u[y]).value,
                      profile.crypto.hash(u[y].publicKey), reason)
  {
    LeftoversAreBehindCycles(profile, u, y);
  }

  /** The reason given to the second, if any, is what the state after the first objects to. */
  lemma SecondObjected(
    profile: Profile, s: Candidates, a: seq<Id>, x: SignedEvent, y: SignedEvent, u: Candidates, reason: RejectionReason)
    requires Contenders(profile, s, a, x, y) && Precedes(profile, x, y) && u == With(With(s, x), y)
    requires IsResolution(profile, u, a + [x.id])
    ensures Objected(profile, u, a + [x.id], y.id, reason) <==>
              Objects(profile.crypto, StateAfter(profile, Log(s, a) + [x]), y, Decode(profile, y).value,
                      profile.crypto.hash(y.publicKey), reason)
  {
    SecondSeesFirst(profile, s, a, x, y);
    EitherAlone(profile, s, a, x, y);
    ParentsAreAccepted(s, a, x, y);
    ObjectedByState(profile, u, a + [x.id], y.id, reason);
  }

  lemma LeavesOne(s: Candidates, a: seq<Id>, x: SignedEvent, y: SignedEvent)
    requires Elements(a) == s.Keys && y.id !in s && x.id != y.id
    ensures With(With(s, x), y).Keys - Elements(a + [x.id]) == {y.id}
  {
    KeysWith(s, a, x);
  }

  /** When the second may not follow the first, it is all that is rejected. */
  lemma OnlySecondIsRejected(
    profile: Profile, s: Candidates, a: seq<Id>, x: SignedEvent, y: SignedEvent, u: Candidates, r: ChatResolution)
    requires Contenders(profile, s, a, x, y) && u == With(With(s, x), y)
    requires IsResolution(profile, u, a + [x.id]) && Resolves(profile, u, r)
    ensures r.acceptedInOrder == a + [x.id] && r.rejected.Keys == {y.id}
    ensures r.snapshot.state == StateAfter(profile, Log(s, a) + [x])
  {
    ResolutionIsUnique(profile, u, r.acceptedInOrder, a + [x.id]);
    EitherAlone(profile, s, a, x, y);
    LeavesOne(s, a, x, y);
    SameLogInMore(s, a, x, y);
  }

  lemma ReportedWhenObjected(
    profile: Profile, u: Candidates, accepted: seq<Id>, x: Id, r: ChatResolution, reason: RejectionReason)
    requires Indexed(u) && IsResolution(profile, u, accepted) && Resolves(profile, u, r) && x in u
    requires Objected(profile, u, accepted, x, reason)
    ensures x in r.rejected && r.rejected[x] == reason
  {
    ResolutionIsUnique(profile, u, r.acceptedInOrder, accepted);
    RejectionIs(profile, u, r, x, reason);
  }

  lemma BothAreIndexed(s: Candidates, x: SignedEvent, y: SignedEvent)
    requires Indexed(s)
    ensures Indexed(With(With(s, x), y)) && y.id in With(With(s, x), y)
  {
  }
}
