/** After an exchange both peers see the same community: same accepted order, rejections and snapshot. */
module Agreement {
  import opened Protocol
  import opened Closure
  import opened Node
  import opened NodeTheorems
  import opened SyncState
  import opened ByteCount
  import opened TwoPeers
  import opened Exchange
  import opened Projection
  import Chat
  import Resolver
  import ResolverTheorems

  /** A peer that knows the whole world has the world's rows. */
  lemma RowsAreTheWorld(crypto: Crypto, u: Events, community: Id, peer: Peer)
    requires Inhabits(crypto, u, community, peer) && peer.node.known == u.Keys
    ensures Sound(crypto, peer.node) && Only(peer.node.store, peer.node.known) == u
  {
    GroundedHoldsParents(peer.node.store, peer.node.known);
    OnlyIs(peer.node.store, u);
  }

  lemma OnlyIs(store: Events, u: Events)
    requires u.Keys <= store.Keys && forall i :: i in store && i in u ==> store[i] == u[i]
    ensures Only(store, u.Keys) == u
  {
  }

  /** Sound nodes with the same known rows have the same resolution. */
  lemma SameRowsSameResolution(
    profile: Chat.Profile, one: NodeState, other: NodeState, r: Resolver.ChatResolution, s: Resolver.ChatResolution)
    requires Sound(profile.crypto, one) && Sound(profile.crypto, other)
    requires Only(one.store, one.known) == Only(other.store, other.known)
    requires ResolvedFrom(profile, one, r) && ResolvedFrom(profile, other, s)
    ensures r == s
  {
    KnownAreRows(profile.crypto, one);
    KnownAreRows(profile.crypto, other);
    ResolverTheorems.ResolvesIsUnique(profile, Known(one), r, s);
  }

  /** Both nodes resolve what they know to the same resolution. */
  ghost predicate ResolveAlike(profile: Chat.Profile, one: NodeState, other: NodeState) {
    forall r, s :: ResolvedFrom(profile, one, r) && ResolvedFrom(profile, other, s) ==> r == s
  }

  lemma ConvergedAgree(profile: Chat.Profile, u: Events, community: Id, net: Net)
    requires Good(profile.crypto, u, community, net) && Quiet(net)
    ensures ResolveAlike(profile, net.left.node, net.right.node)
  {
    QuiescenceIsConvergence(profile.crypto, u, community, net);
    RowsAreTheWorld(profile.crypto, u, community, net.left);
    RowsAreTheWorld(profile.crypto, u, community, net.right);
    forall r, s | ResolvedFrom(profile, net.left.node, r) && ResolvedFrom(profile, net.right.node, s)
      ensures r == s
    {
      SameRowsSameResolution(profile, net.left.node, net.right.node, r, s);
    }
  }

  /**
   Whatever the schedule, two peers that have exchanged everything resolve it alike: the same accepted
   order, the same rejections and the same snapshot.
   */
  lemma PeersAgree(profile: Chat.Profile, community: Id, a: Peer, b: Peer, run: nat -> Net) returns (n: nat)
    requires CanMeet(profile.crypto, community, a, b)
    requires run(0) == Start(community, a, b) && Schedule(profile.crypto, run)
    ensures Quiet(run(n)) && Converged(run(n), a.node.known + b.node.known)
    ensures ResolveAlike(profile, run(n).left.node, run(n).right.node)
  {
    StartIsGood(profile.crypto, community, a, b);
    n := RunBecomesQuiet(profile.crypto, Union(a, b), community, run);
    QuiescenceIsConvergence(profile.crypto, Union(a, b), community, run(n));
    ConvergedAgree(profile, Union(a, b), community, run(n));
  }
}
