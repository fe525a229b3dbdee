/**
 Authoring on top of the heads (crates/cli/src/main.rs:413-428): an event whose parents are all heads
 becomes the only head, and if the heads are accepted it is decided last of all.
 */
module Authoring {
  import opened Wrappers
  import opened Bytes
  import opened Protocol
  import opened Ordering
  import opened Chat
  import opened Causality
  import opened DecisionOrder
  import opened Resolver
  import opened ResolverTheorems
  import Closure
  import Node
  import NodeTheorems

  // ------------------------------------------------------------------ creating events

  datatype Identity = Identity(publicKey: Octets, sign: Octets -> Octets)

  /** Signatures of the identity have the right length and verify under its key. */
  ghost predicate Honest(crypto: Crypto, identity: Identity) {
    && |identity.publicKey| == PUBLIC_KEY_LEN
    && forall bytes ::
         |identity.sign(bytes)| == SIGNATURE_LEN && crypto.verify(identity.publicKey, bytes, identity.sign(bytes))
  }

  /** `create_signed`: parents are sorted and deduplicated, the content signed, the id computed. */
  function CreateSigned(crypto: Crypto, identity: Identity, content: Content): SignedEvent {
    var tidy := content.(parents := Ascending(Elements(content.parents)));
    var signature := identity.sign(CanonicalContent(tidy));
    SignedEvent(tidy, identity.publicKey, signature,
                crypto.hash(EventIdPreimage(tidy, identity.publicKey, signature)))
  }

  /** What an honest identity creates is valid exactly when the content is within the limits. */
  lemma CreatedIsValid(crypto: Crypto, identity: Identity, content: Content)
    requires Honest(crypto, identity)
    ensures ValidEvent(crypto, CreateSigned(crypto, identity, content)) <==>
              && content.version == PROTOCOL_VERSION
              && 0 < |content.eventType| <= MAX_EVENT_TYPE_BYTES && |content.payload| <= MAX_PAYLOAD_BYTES
              && |Elements(content.parents)| <= MAX_PARENTS
              && (content.community.None? <==> content.parents == [])
    ensures Parents(CreateSigned(crypto, identity, content)) == Elements(content.parents)
  {
    TidyParents(content.parents);
    SignsProperly(crypto, identity, content.(parents := Ascending(Elements(content.parents))));
  }

  lemma TidyParents(parents: seq<Id>)
    ensures var tidy := Ascending(Elements(parents));
            && (tidy == [] <==> parents == []) && |tidy| == |Elements(parents)| && StrictlySorted(tidy)
            && (set p | p in tidy) == Elements(parents)
  {
    var tidy := Ascending(Elements(parents));
    assert (set p | p in tidy) == Elements(tidy);
    if parents != [] {
      NonEmpty(parents);
    } else {
      assert Elements(parents) == {};
    }
  }

  /** An honest signature never is what makes an event invalid. */
  lemma SignsProperly(crypto: Crypto, identity: Identity, content: Content)
    requires Honest(crypto, identity) && StrictlySorted(content.parents)
    ensures var signature := identity.sign(CanonicalContent(content));
            var event := SignedEvent(content, identity.publicKey, signature,
                                     crypto.hash(EventIdPreimage(content, identity.publicKey, signature)));
            ValidEvent(crypto, event) <==>
              && content.version == PROTOCOL_VERSION
              && 0 < |content.eventType| <= MAX_EVENT_TYPE_BYTES && |content.payload| <= MAX_PAYLOAD_BYTES
              && |content.parents| <= MAX_PARENTS && (content.community.None? <==> content.parents == [])
  {
  }

  // ------------------------------------------------------------------ the only head

  function Heads(s: Candidates): set<Id> {
    Node.HeadSet(s, s.Keys)
  }

  /** An event on all heads leaves no other head. */
  lemma AuthoredIsOnlyHead(s: Candidates, event: SignedEvent)
    requires Closure.Grounded(s, s.Keys) && event.id !in s && Parents(event) == Heads(s)
    ensures Heads(With(s, event)) == {event.id}
  {
    var t := With(s, event);
    Closure.GroundedHoldsParents(s, s.Keys);
    forall i | i in s
      ensures i !in Heads(t)
    {
      if i in Heads(s) {
        assert i in Parents(t[event.id]);
      } else {
        var k :| k in s && i in Parents(s[k]);
        assert k in t && t[k] == s[k];
      }
    }
    forall k | k in t
      ensures event.id !in Parents(t[k])
    {
      if k != event.id {
        assert Parents(t[k]) <= s.Keys;
      }
    }
  }

  // ------------------------------------------------------------------ everything is accepted

  /** If the heads are accepted, so is everything below them. */
  lemma HeadsCarryEverything(profile: Profile, s: Candidates, a: seq<Id>)
    requires Indexed(s) && Closure.Grounded(s, s.Keys) && IsResolution(profile, s, a) && Heads(s) <= Elements(a)
    ensures Elements(a) == s.Keys
  {
    AcceptedAreCandidates(profile, s, a);
    forall i, p | i in Elements(a) && i in s && p in Parents(s[i])
      ensures p in Elements(a)
    {
      var n :| 0 <= n < |a| && a[n] == i;
      AcceptedOrderIsCausal(profile, s, a, n, p);
    }
    NodeTheorems.HeadsCoverEverything(s, s.Keys, Elements(a));
  }

  /** Then every known event has a place in the decision order. */
  lemma EverythingIsKeyed(profile: Profile, s: Candidates, a: seq<Id>)
    requires IsResolution(profile, s, a) && Elements(a) == s.Keys
    ensures DecisionKeys(profile, s).Keys == s.Keys
  {
    KeysAreKeyed(profile, s);
    forall x | x in s
      ensures x in DecisionKeys(profile, s)
    {
      assert x in Elements(a);
    }
  }

  // ------------------------------------------------------------------ decided last

  /** The chains below the first parents are bounded together. */
  lemma {:induction false} BoundTogether(g: Graph, ids: seq<Id>) returns (bound: nat)
    requires forall p :: p in ids && p in g ==> Causality.Settled(g, p)
    ensures forall p :: p in ids ==> !HasChain(g, p, bound)
    decreases |ids|
  {
    if ids == [] {
      bound := 0;
    } else {
      var first, rest := ids[0], ids[1..];
      var b := BoundTogether(g, rest);
      var d := 0;
      if first in g {
        d := Depth(g, first) + 1;
        ChainsReachDepth(g, first, d);
      }
      bound := if b < d then d else b;
      forall p | p in ids
        ensures !HasChain(g, p, bound)
      {
        if HasChain(g, p, bound) {
          assert p == first || p in rest;
          ChainsShorten(g, p, if p == first then d else b, bound);
        }
      }
    }
  }

  lemma SettledByParents(g: Graph, x: Id)
    requires x in g && forall p :: p in g[x] && p in g ==> Causality.Settled(g, p)
    ensures Causality.Settled(g, x)
  {
    var bound := BoundTogether(g, g[x]);
    assert !HasChain(g, x, bound + 1);
  }

  /** A decodable event on keyed parents is keyed. */
  lemma AuthoredIsKeyed(profile: Profile, s: Candidates, event: SignedEvent)
    requires ArrivesLate(s, event) && Decode(profile, event).Some?
    requires DecisionKeys(profile, s).Keys == s.Keys && Parents(event) <= s.Keys
    ensures event.id in DecisionKeys(profile, With(s, event))
  {
    var t := With(s, event);
    var g := GraphOf(profile, t);
    forall p | p in g[event.id] && p in g
      ensures Causality.Settled(g, p)
    {
      assert p in Parents(event);
      LateKeepsKeys(profile, s, event, p);
    }
    SettledByParents(g, event.id);
  }

  /** Depths that grow from parent to child stay below what the heads stay below. */
  lemma HeadsAreDeepest(s: Candidates, keys: Keys, limit: nat)
    requires Closure.Grounded(s, s.Keys) && s.Keys <= keys.Keys
    requires forall h :: h in Heads(s) ==> keys[h].depth < limit
    requires forall i, p :: i in s && p in Parents(s[i]) && p in s ==> keys[p].depth < keys[i].depth
    ensures forall x :: x in s ==> keys[x].depth < limit
  {
    var inside := set x | x in s && keys[x].depth < limit;
    Closure.GroundedHoldsParents(s, s.Keys);
    NodeTheorems.HeadsCoverEverything(s, s.Keys, inside);
  }

  /** Known parents have earlier rounds than their children. */
  ghost predicate Deepening(s: Candidates, t: Candidates, keys: Keys) {
    && s.Keys <= keys.Keys
    && forall i, p :: i in t && i in keys && p in s && p in Parents(t[i]) ==> keys[p].depth < keys[i].depth
  }

  lemma KeysDeepen(profile: Profile, s: Candidates, event: SignedEvent)
    requires ArrivesLate(s, event) && DecisionKeys(profile, s).Keys == s.Keys
    ensures Deepening(s, With(s, event), DecisionKeys(profile, With(s, event)))
  {
    OldAreKeyed(profile, s, event);
    var t := With(s, event);
    var keys := DecisionKeys(profile, t);
    forall i, p | i in t && i in keys && p in s && p in Parents(t[i])
      ensures keys[p].depth < keys[i].depth
    {
      ParentIsEarlier(profile, s, event, i, p);
    }
  }

  /** Every known event is decided in an earlier round than an event on all heads. */
  lemma AuthoredIsLast(s: Candidates, event: SignedEvent, keys: Keys)
    requires event.id !in s && Closure.Grounded(s, s.Keys) && Parents(event) == Heads(s)
    requires Deepening(s, With(s, event), keys) && event.id in keys
    ensures forall x :: x in s ==> keys[x].depth < keys[event.id].depth
  {
    OldRowsDeepen(s, event, keys);
    HeadsAreDeepest(s, keys, keys[event.id].depth);
  }

  lemma OldRowsDeepen(s: Candidates, event: SignedEvent, keys: Keys)
    requires event.id !in s && Deepening(s, With(s, event), keys) && event.id in keys
    ensures forall h :: h in Parents(event) && h in s ==> keys[h].depth < keys[event.id].depth
    ensures forall i, p :: i in s && p in Parents(s[i]) && p in s ==> keys[p].depth < keys[i].depth
  {
    var t := With(s, event);
    assert t[event.id] == event;
    forall i, p | i in s && p in Parents(s[i]) && p in s
      ensures keys[p].depth < keys[i].depth
    {
      assert t[i] == s[i];
    }
  }

  lemma ParentIsEarlier(profile: Profile, s: Candidates, event: SignedEvent, i: Id, p: Id)
    requires ArrivesLate(s, event) && i in DecisionKeys(profile, With(s, event))
    requires p in s && p in DecisionKeys(profile, s) && i in With(s, event) && p in Parents(With(s, event)[i])
    ensures p in DecisionKeys(profile, With(s, event))
    ensures DecisionKeys(profile, With(s, event))[p].depth < DecisionKeys(profile, With(s, event))[i].depth
  {
    LateKeepsKeys(profile, s, event, p);
    DecisionsFollowCausality(profile, With(s, event), i, p);
  }

  lemma OldAreKeyed(profile: Profile, s: Candidates, event: SignedEvent)
    requires ArrivesLate(s, event) && DecisionKeys(profile, s).Keys == s.Keys
    ensures forall x :: x in s ==> x in DecisionKeys(profile, With(s, event)) && x in GraphOf(profile, With(s, event))
  {
    forall x | x in s
      ensures x in DecisionKeys(profile, With(s, event)) && x in GraphOf(profile, With(s, event))
    {
      LateKeepsKeys(profile, s, event, x);
    }
  }

  lemma AuthoredComesAfterAll(profile: Profile, s: Candidates, event: SignedEvent)
    requires ArrivesLate(s, event) && Closure.Grounded(s, s.Keys) && Parents(event) == Heads(s)
    requires DecisionKeys(profile, s).Keys == s.Keys && event.id in DecisionKeys(profile, With(s, event))
    ensures DecidedBefore(profile, s, event) == DecisionKeys(profile, s).Keys
  {
    KeysDeepen(profile, s, event);
    AuthoredIsLast(s, event, DecisionKeys(profile, With(s, event)));
    LateKeepsAllKeys(profile, s, event);
  }

  /**
   With all heads accepted, resolving everything known and an event on those heads leaves the accepted
   order as it was, extended by exactly that event when the state after the order allows it.
   */
  lemma AuthoringExtends(profile: Profile, s: Candidates, event: SignedEvent, a: seq<Id>)
    requires Indexed(s) && Closure.Grounded(s, s.Keys) && IsResolution(profile, s, a) && Heads(s) <= Elements(a)
    requires event.id !in s && Parents(event) == Heads(s)
    ensures Elements(a) == s.Keys && AllCandidates(s, a)
    ensures IsResolution(profile, With(s, event), if Admissible(profile, Log(s, a), event) then a + [event.id] else a)
  {
    HeadsCarryEverything(profile, s, a);
    EverythingIsKeyed(profile, s, a);
    NobodyNamesIt(s, event);
    if Decode(profile, event).Some? {
      AuthoredIsKeyed(profile, s, event);
      AuthoredComesAfterAll(profile, s, event);
      LastArrivalExtends(profile, s, event, a);
    } else {
      UndecodableChangesNothing(profile, s, event, a);
    }
  }

  /** An event that does not decode is never decided. */
  lemma UndecodableChangesNothing(profile: Profile, s: Candidates, event: SignedEvent, a: seq<Id>)
    requires ArrivesLate(s, event) && IsResolution(profile, s, a) && Decode(profile, event).None?
    ensures IsResolution(profile, With(s, event), a) && AllCandidates(s, a)
  {
    AcceptedAreCandidates(profile, s, a);
    LateKeepsAllKeys(profile, s, event);
    SameKeys(DecisionKeys(profile, s), DecisionKeys(profile, With(s, event)), event.id);
    OldResolutionStands(profile, s, event, a);
  }

  lemma NobodyNamesIt(s: Candidates, event: SignedEvent)
    requires Indexed(s) && Closure.Grounded(s, s.Keys) && event.id !in s
    ensures ArrivesLate(s, event)
  {
    Closure.GroundedHoldsParents(s, s.Keys);
  }

  /**
   `require_candidate_accepted` on an event authored on accepted heads succeeds exactly when the state
   after the accepted order allows the event.
   */
  lemma AuthoringIsDecidedByTheState(profile: Profile, s: Candidates, event: SignedEvent, a: seq<Id>, r: ChatResolution)
    requires Indexed(s) && Closure.Grounded(s, s.Keys) && IsResolution(profile, s, a) && Heads(s) <= Elements(a)
    requires event.id !in s && Parents(event) == Heads(s)
    requires Resolves(profile, With(s, event), r)
    ensures AllCandidates(s, a)
    ensures event.id in r.snapshot.eventIds <==> Admissible(profile, Log(s, a), event)
    ensures r.acceptedInOrder == if Admissible(profile, Log(s, a), event) then a + [event.id] else a
  {
    AuthoringExtends(profile, s, event, a);
    var b := if Admissible(profile, Log(s, a), event) then a + [event.id] else a;
    ResolutionIsUnique(profile, With(s, event), r.acceptedInOrder, b);
    assert event.id in a + [event.id];
    assert forall x :: x in a ==> x in Elements(a);
  }
}
