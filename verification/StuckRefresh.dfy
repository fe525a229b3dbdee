/**
 A refresh can get stuck: a community whose newest invitation has more than 256 ancestors, and one whose
 newest invitation has few, but too large to disclose.
 */
module StuckRefresh {
  import opened Wrappers
  import opened Protocol
  import opened Ordering
  import opened Closure
  import opened Node
  import opened NodeTheorems
  import opened Network
  import opened Projection
  import opened Refresh
  import opened Samples
  import opened LongAncestry
  import opened ByteCount
  import Archives
  import Chat
  import Json
  import Resolver
  import ResolveRounds

  /** The node that knows exactly the links. */
  function NodeOf(base: nat, s: Events): NodeState
    requires base <= MAX_LINK_BYTES
  {
    NodeState(s, Some(IdAt(base, 0)), s.Keys)
  }

  lemma LinksAreSound(base: nat, n: nat, s: Events, order: seq<Id>)
    requires 0 < n && base + n <= MAX_LINK_BYTES && Links(base, n, s, order) && Chained(base, n, s)
    ensures Sound(SampleCrypto(), NodeOf(base, s))
  {
    forall i | i in s
      ensures s[i].id == i && ValidEvent(SampleCrypto(), s[i]) && Belongs(s[i], IdAt(base, 0))
    {
      LinkAt(base, n, s, order, i);
    }
    assert Placed(base, s, order, 0);
  }

  lemma LinkAt(base: nat, n: nat, s: Events, order: seq<Id>, i: Id)
    requires base + n <= MAX_LINK_BYTES && Links(base, n, s, order) && i in s
    ensures ValidEvent(SampleCrypto(), s[i]) && Belongs(s[i], IdAt(base, 0))
  {
    assert i in Elements(order);
    var k: nat :| k < n && order[k] == i;
    assert Placed(base, s, order, k);
    LinkIsValid(base, k);
  }

  /** A set that holds a link and the parents of its members holds all earlier links. */
  lemma {:induction false} EarlierLinks(base: nat, n: nat, s: Events, order: seq<Id>, other: set<Id>, j: nat, k: nat)
    requires base + n <= MAX_LINK_BYTES && Links(base, n, s, order) && j <= k < n
    requires Ancestral(s, other) && IdAt(base, k) in other
    ensures IdAt(base, j) in other
    decreases k - j
  {
    if j < k {
      ParentLink(base, n, s, order, k);
      EarlierLinks(base, n, s, order, other, j, k - 1);
    }
  }

  lemma ParentLink(base: nat, n: nat, s: Events, order: seq<Id>, k: nat)
    requires base + n <= MAX_LINK_BYTES && Links(base, n, s, order) && 0 < k < n
    ensures IdAt(base, k) in s && IdAt(base, k - 1) in Parents(s[IdAt(base, k)])
  {
    assert Placed(base, s, order, k);
    LinkIsValid(base, k);
  }

  lemma AncestryIsEverything(base: nat, n: nat, s: Events, order: seq<Id>, other: set<Id>)
    requires 0 < n && base + n <= MAX_LINK_BYTES && Links(base, n, s, order)
    requires Ancestral(s, other) && IdAt(base, n - 1) in other
    ensures s.Keys <= other && |other| >= n
  {
    forall i | i in s.Keys
      ensures i in other
    {
      assert i in Elements(order);
      var k: nat :| k < n && order[k] == i;
      assert Placed(base, s, order, k);
      EarlierLinks(base, n, s, order, other, k, n - 1);
    }
    SubsetIsNoLarger(s.Keys, other);
  }

  lemma KnownAreLinks(base: nat, crypto: Crypto, s: Events)
    requires base <= MAX_LINK_BYTES && Sound(crypto, NodeOf(base, s))
    ensures ResolveRounds.NoCollisions(Archives.Export(NodeOf(base, s))) && Known(NodeOf(base, s)) == s
  {
    KnownAreRows(crypto, NodeOf(base, s));
    OnlyAll(s);
  }

  lemma OnlyAll(s: Events)
    ensures Only(s, s.Keys) == s
  {
  }

  /** The resolution that accepts everything in order. */
  ghost function AllAccepted(s: Events, order: seq<Id>): Resolver.ChatResolution
    requires Resolver.AllCandidates(s, order)
  {
    Resolver.ChatResolution(
      order, map[], Resolver.SnapshotOf(Chat.StateAfter(SampleProfile(), Resolver.Log(s, order)), order))
  }

  lemma NewestIsOpen(base: nat, n: nat, s: Events, order: seq<Id>)
    requires 1 < n && base + n <= MAX_LINK_BYTES && Accepted(base, n, s, order)
    ensures IdAt(base, n - 1) in AllAccepted(s, order).snapshot.activeInvitations
  {
    var k: nat := n - 1;
    assert IdAt(base, k) in Chat.StateAfter(SampleProfile(), Resolver.Log(s, order)).invitations;
  }

  lemma AllAcceptedResolves(base: nat, n: nat, s: Events, order: seq<Id>)
    requires base + n <= MAX_LINK_BYTES && Links(base, n, s, order) && Accepted(base, n, s, order)
    ensures Resolver.Resolves(SampleProfile(), s, AllAccepted(s, order))
  {
    assert s.Keys - Elements(order) == {};
  }

  lemma NewestIsTooLong(base: nat, n: nat, s: Events, order: seq<Id>)
    requires MAX_BOOTSTRAP_ANCESTRY_EVENTS < n && base + n <= MAX_LINK_BYTES && Links(base, n, s, order)
    ensures AncestryExceeds(s, IdAt(base, n - 1), MAX_BOOTSTRAP_ANCESTRY_EVENTS)
  {
    forall other | Ancestral(s, other) && IdAt(base, n - 1) in other
      ensures |other| > MAX_BOOTSTRAP_ANCESTRY_EVENTS
    {
      AncestryIsEverything(base, n, s, order, other);
    }
  }

  /** The node of a chain, and its resolution: everything is accepted and the newest invitation is open. */
  lemma ChainNode(base: nat, n: nat) returns (s: Events, order: seq<Id>, r: Resolver.ChatResolution)
    requires 1 < n && base + n <= MAX_LINK_BYTES
    ensures Links(base, n, s, order) && Chained(base, n, s)
    ensures Sound(SampleCrypto(), NodeOf(base, s)) && ResolvedFrom(SampleProfile(), NodeOf(base, s), r)
    ensures IdAt(base, n - 1) in r.snapshot.activeInvitations
  {
    s, order := Build(base, n);
    r := AllAccepted(s, order);
    LinksAreSound(base, n, s, order);
    KnownAreLinks(base, SampleCrypto(), s);
    AllAcceptedResolves(base, n, s, order);
    NewestIsOpen(base, n, s, order);
  }

  lemma SomeIsTooLong(base: nat, n: nat, s: Events, order: seq<Id>, ids: set<Id>)
    requires MAX_BOOTSTRAP_ANCESTRY_EVENTS < n && base + n <= MAX_LINK_BYTES && Links(base, n, s, order)
    requires IdAt(base, n - 1) in ids
    ensures SomeTooLong(s, ids)
  {
    NewestIsTooLong(base, n, s, order);
  }

  /** A sound node, and the resolution of what it knows, in which an active invitation has 257 ancestors. */
  lemma SomeInvitationIsTooLong()
    returns (profile: Chat.Profile, node: NodeState, r: Resolver.ChatResolution)
    ensures Sound(profile.crypto, node) && node.community.Some? && ResolvedFrom(profile, node, r)
    ensures SomeTooLong(node.store, r.snapshot.activeInvitations.Keys)
  {
    var n := MAX_BOOTSTRAP_ANCESTRY_EVENTS + 1;
    var s, order;
    s, order, r := ChainNode(0, n);
    profile, node := SampleProfile(), NodeOf(0, s);
    SomeIsTooLong(0, n, s, order, r.snapshot.activeInvitations.Keys);
  }

  // ------------------------------------------------------------------ a disclosure that is too large

  lemma {:induction false} HeavyEvents(events: seq<SignedEvent>)
    requires forall e :: e in events ==> |e.content.payload| >= 60_000
    ensures Json.EventItemsJson(events) >= 120_000 * |events|
  {
    if events != [] {
      assert events[0] in events;
      Json.BytesJsonAtLeast(events[0].content.payload);
      HeavyEvents(events[1..]);
    }
  }

  lemma ListedInOrder(base: nat, n: nat, s: Events, order: seq<Id>)
    requires base + n <= MAX_LINK_BYTES && Links(base, n, s, order)
    ensures Ascending(s.Keys) == order
  {
    forall i: nat, j: nat | i < j < n
      ensures order[i] < order[j]
    {
      assert Placed(base, s, order, i) && Placed(base, s, order, j);
      IdsGrow(base, i, j);
    }
    SortedIsUnique(Ascending(s.Keys), order);
  }

  /** The ancestry of the newest invitation is the whole chain. */
  lemma AncestryIsTheChain(base: nat, n: nat, s: Events, order: seq<Id>, ids: set<Id>)
    requires 0 < n && base + n <= MAX_LINK_BYTES && Links(base, n, s, order) && Chained(base, n, s)
    requires AncestryOf(s, IdAt(base, n - 1), ids)
    ensures ids == s.Keys
  {
    AncestryIsEverything(base, n, s, order, ids);
  }

  lemma LinksAreHeavy(base: nat, n: nat, s: Events, order: seq<Id>, events: seq<SignedEvent>)
    requires 60_000 <= base && 0 < n && base + n <= MAX_LINK_BYTES && Links(base, n, s, order)
    requires |events| == n && forall k: nat :: k < n ==> order[k] in s && events[k] == s[order[k]]
    ensures Json.EventItemsJson(events) >= 120_000 * (n - 1)
  {
    var rest := events[1..];
    forall e | e in rest
      ensures |e.content.payload| >= 60_000
    {
      var k: nat :| k < |rest| && rest[k] == e;
      assert Placed(base, s, order, k + 1);
      LinkIsHeavy(base, k + 1);
    }
    HeavyEvents(rest);
  }

  lemma LinkIsHeavy(base: nat, k: nat)
    requires 0 < k && base + k <= MAX_LINK_BYTES
    ensures |Link(base, k).content.payload| == base + k
  {
  }

  /** Nine invitations with payloads above 60,000 bytes do not fit a frame. */
  lemma NewestIsTooLarge(base: nat, n: nat, s: Events, order: seq<Id>)
    requires 60_000 <= base && 10 <= n && base + n <= MAX_LINK_BYTES
    requires Links(base, n, s, order) && Chained(base, n, s)
    ensures !Disclosable(s, IdAt(base, n - 1))
  {
    var newest := IdAt(base, n - 1);
    forall ids, events | TracedBy(s, newest, ids, events)
      ensures !DisclosureFits(newest, events)
    {
      AncestryIsTheChain(base, n, s, order, ids);
      ListedInOrder(base, n, s, order);
      LinksAreHeavy(base, n, s, order, events);
      DoesNotFit(newest, events);
    }
  }

  lemma DoesNotFit(invitation: Id, events: seq<SignedEvent>)
    requires Json.EventItemsJson(events) >= 1_080_000
    ensures !DisclosureFits(invitation, events)
  {
  }

  /** No ancestry in a short chain is too long. */
  lemma NothingIsTooLong(base: nat, n: nat, s: Events, order: seq<Id>)
    requires n <= MAX_BOOTSTRAP_ANCESTRY_EVENTS && base + n <= MAX_LINK_BYTES
    requires Links(base, n, s, order) && Chained(base, n, s)
    ensures !SomeTooLong(s, s.Keys)
  {
    GroundedHoldsParents(s, s.Keys);
    assert Ancestral(s, s.Keys);
  }

  /**
   A sound node, and the resolution of what it knows, in which no active invitation has more than 256
   ancestors but the disclosure of one exceeds 1 MiB.
   */
  lemma SomeDisclosureIsTooLarge()
    returns (profile: Chat.Profile, node: NodeState, r: Resolver.ChatResolution)
    ensures Sound(profile.crypto, node) && node.community.Some? && ResolvedFrom(profile, node, r)
    ensures !SomeTooLong(node.store, r.snapshot.activeInvitations.Keys)
    ensures !AllDisclosable(node.store, r.snapshot.activeInvitations.Keys)
  {
    var base, n := 60_000, 10;
    var s, order;
    s, order, r := ChainNode(base, n);
    profile, node := SampleProfile(), NodeOf(base, s);
    ActiveAreKnown(profile, node, r);
    NothingIsTooLong(base, n, s, order);
    NewestIsTooLarge(base, n, s, order);
    NotAll(s, r.snapshot.activeInvitations.Keys, IdAt(base, n - 1));
  }

  lemma NotAll(store: Events, ids: set<Id>, i: Id)
    requires i in ids && !Disclosable(store, i)
    ensures !AllDisclosable(store, ids)
  {
  }
}
