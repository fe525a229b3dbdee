/** The resolution of everything a node knows, as the program computes it before acting on it. */
module Projection {
  import opened Protocol
  import opened Closure
  import opened Node
  import opened NodeTheorems
  import opened ByteCount
  import Archives
  import Chat
  import Governance
  import Resolver
  import ResolveRounds
  import ResolverTheorems

  ghost function Known(node: NodeState): Resolver.Candidates
    requires ResolveRounds.NoCollisions(Archives.Export(node))
  {
    ResolveRounds.Index(Archives.Export(node))
  }

  lemma KnownHasNoCollisions(crypto: Crypto, node: NodeState)
    requires Sound(crypto, node)
    ensures ResolveRounds.NoCollisions(Archives.Export(node))
    ensures forall x :: x in Known(node) ==> x in node.known
    ensures forall e :: e in Archives.Export(node) ==> ValidEvent(crypto, e)
  {
    Archives.ExportIsKnown(crypto, node);
    forall e | e in Archives.Export(node)
      ensures e.id in node.known && ValidEvent(crypto, e)
    {
    }
  }

  /** A listing of a collection indexes to it. */
  lemma IndexOfListing(list: seq<SignedEvent>, s: Events)
    requires ResolveRounds.NoCollisions(list) && Indexed(s)
    requires forall e :: e in list <==> e.id in s && s[e.id] == e
    ensures ResolveRounds.Index(list) == s
  {
    var index := ResolveRounds.Index(list);
    forall i | i in s
      ensures i in index && index[i] == s[i]
    {
      assert s[i].id == i && s[i] in list;
    }
    forall i | i in index
      ensures i in s
    {
      var e :| e in list && e.id == i;
    }
  }

  /** What is resolved are the known rows. */
  lemma KnownAreRows(crypto: Crypto, node: NodeState)
    requires Sound(crypto, node)
    ensures ResolveRounds.NoCollisions(Archives.Export(node)) && Known(node) == Only(node.store, node.known)
  {
    KnownHasNoCollisions(crypto, node);
    Archives.ExportIsKnown(crypto, node);
    RowsAreListed(node.store, node.known, Archives.Export(node));
    IndexOfListing(Archives.Export(node), Only(node.store, node.known));
  }

  lemma RowsAreListed(store: Events, known: set<Id>, list: seq<SignedEvent>)
    requires known <= store.Keys && Indexed(store)
    requires forall e :: e in list <==> e.id in known && store[e.id] == e
    ensures Indexed(Only(store, known))
    ensures forall e :: e in list <==> e.id in Only(store, known) && Only(store, known)[e.id] == e
  {
  }

  /** `r` resolves everything the node knows. */
  ghost predicate ResolvedFrom(profile: Chat.Profile, node: NodeState, r: Resolver.ChatResolution) {
    ResolveRounds.NoCollisions(Archives.Export(node)) && Resolver.Resolves(profile, Known(node), r)
  }

  method ResolveKnown(profile: Chat.Profile, core: CoreNode) returns (resolution: Resolver.ChatResolution)
    requires Sound(profile.crypto, core.View())
    ensures ResolvedFrom(profile, core.View(), resolution)
    ensures resolution.snapshot.activeInvitations.Keys <= core.known
  {
    KnownHasNoCollisions(profile.crypto, core.View());
    var r := ResolveRounds.Resolve(profile, Archives.Export(core.View()));
    resolution := r.value;
    ActiveAreKnown(profile, core.View(), resolution);
  }

  /** Active invitations are known events. */
  lemma ActiveIsKnown(profile: Chat.Profile, candidates: Resolver.Candidates, r: Resolver.ChatResolution, i: Id)
    requires Indexed(candidates) && Resolver.Resolves(profile, candidates, r)
    requires i in r.snapshot.activeInvitations
    ensures i in candidates
  {
    var log := Resolver.Log(candidates, r.acceptedInOrder);
    ResolverTheorems.AcceptedLogIsAuthorized(profile, candidates, r.acceptedInOrder);
    Governance.RedeemedInLog(profile, log, i);
    assert Governance.SomeIssues(profile, log, i);
    var n :| 0 <= n < |log| && log[n].id == i;
    assert log[n] == candidates[r.acceptedInOrder[n]];
  }

  lemma ActiveAreKnown(profile: Chat.Profile, node: NodeState, r: Resolver.ChatResolution)
    requires Sound(profile.crypto, node) && ResolveRounds.NoCollisions(Archives.Export(node))
    requires Resolver.Resolves(profile, Known(node), r)
    ensures r.snapshot.activeInvitations.Keys <= node.known
  {
    KnownHasNoCollisions(profile.crypto, node);
    forall i | i in r.snapshot.activeInvitations
      ensures i in node.known
    {
      ActiveIsKnown(profile, Known(node), r, i);
    }
  }
}
