/** What ingestion keeps, and how heads sit above everything a node knows. */
module NodeTheorems {
  import opened Wrappers
  import opened Protocol
  import opened Closure
  import opened Node
  import Causality

  /** Stored events are valid and filed under their ids. */
  ghost predicate SoundStore(crypto: Crypto, store: Events) {
    forall i :: i in store ==> store[i].id == i && ValidEvent(crypto, store[i])
  }

  /** The shape of every node reached by ingestion. */
  ghost predicate Sound(crypto: Crypto, node: NodeState) {
    && SoundStore(crypto, node.store)
    && Grounded(node.store, node.known)
    && (node.community.None? ==> node.known == {})
    && (node.community.Some? ==>
          && node.community.value in node.known
          && forall i :: i in node.known && i in node.store ==> Belongs(node.store[i], node.community.value))
  }

  /** The batch does not collide with a stored row or with itself. */
  ghost predicate NoClash(store: Events, events: seq<SignedEvent>) {
    && (forall e :: e in events && e.id in store ==> store[e.id] == e)
    && (forall e, f :: e in events && f in events && e.id == f.id ==> e == f)
  }

  lemma EmptyNodeIsSound(crypto: Crypto, store: Events)
    requires SoundStore(crypto, store)
    ensures Sound(crypto, NodeState(store, None, {}))
  {
    NothingIsGrounded(store);
  }

  lemma StoredIsSound(crypto: Crypto, store: Events, events: seq<SignedEvent>, ids: set<Id>)
    requires SoundStore(crypto, store) && NoClash(store, events) && FirstFault(crypto, events).None?
    requires ids <= BatchOf(events).Keys
    ensures SoundStore(crypto, Stored(store, BatchOf(events), ids))
    ensures forall i :: i in store ==> i in Stored(store, BatchOf(events), ids)
                                       && Stored(store, BatchOf(events), ids)[i] == store[i]
    ensures forall i :: i in ids ==> i in Stored(store, BatchOf(events), ids)
                                     && Stored(store, BatchOf(events), ids)[i] == BatchOf(events)[i]
  {
  }

  /** The absorbed part of a batch is grounded in the store it is written to. */
  lemma AbsorbKeepsGrounded(store: Events, store': Events, known: set<Id>, batch: Events)
    requires Grounded(store, known)
    requires forall i :: i in known && i in store ==> i in store' && store'[i] == store[i]
    requires forall i :: i in Absorbed(known, batch) ==> i in store' && store'[i] == batch[i]
    requires forall i :: i in batch && i in known && i in store ==> batch[i] == store[i]
    ensures Grounded(store', known + Absorbed(known, batch))
  {
    GroundedHoldsParents(store, known);
    var all := store + batch;
    GroundedTransfers(store, all, known);
    AbsorbedIsGrounded(all, known, batch);
    GroundedTransfers(all, store', known + Absorbed(known, batch));
  }

  /** Until a genesis is in the batch, an empty node absorbs nothing. */
  lemma {:induction false} NothingWithoutGenesis(crypto: Crypto, batch: Events)
    requires forall i :: i in batch ==> ValidEvent(crypto, batch[i]) && !IsGenesis(batch[i])
    ensures Absorbed({}, batch) == {}
  {
    forall i | i in batch
      ensures !(Parents(batch[i]) <= {})
    {
      assert batch[i].content.parents[0] in Parents(batch[i]);
    }
    assert Ready({}, batch) == {};
  }

  /** Ingestion keeps a node sound. */
  lemma IngestKeepsSound(crypto: Crypto, node: NodeState, events: seq<SignedEvent>)
    requires Sound(crypto, node) && NoClash(node.store, events)
    requires IngestFault(crypto, node.community, events).None?
    ensures Sound(crypto, Ingested(node, events))
  {
    var target := CommunityFor(node.community, events).value;
    var batch := BatchOf(events);
    var absorbed := Absorbed(node.known, batch);
    var after := Ingested(node, events);
    StoredIsSound(crypto, node.store, events, absorbed);
    AbsorbKeepsGrounded(node.store, after.store, node.known, batch);
    GroundedHoldsParents(node.store, node.known);
    CommunityIsLearned(crypto, node, events);
    forall i | i in after.known
      ensures i in after.store && Belongs(after.store[i], target)
    {
      if i !in node.known {
        assert i in absorbed;
      }
    }
  }

  lemma CommunityIsLearned(crypto: Crypto, node: NodeState, events: seq<SignedEvent>)
    requires Sound(crypto, node) && NoClash(node.store, events)
    requires IngestFault(crypto, node.community, events).None?
    ensures var target := CommunityFor(node.community, events).value;
            && Ingested(node, events).community == Some(target)
            && target in Ingested(node, events).known
  {
    if node.community.None? {
      GenesisIsAbsorbed(crypto, events);
    }
  }

  lemma GenesisIsAbsorbed(crypto: Crypto, events: seq<SignedEvent>)
    requires FirstFault(crypto, events).None? && FirstGenesis(events).Some? && NoClash(map[], events)
    requires AllBelong(events, FirstGenesis(events).value)
    ensures var target := FirstGenesis(events).value;
            && target in BatchOf(events) && IsGenesis(BatchOf(events)[target])
            && target in Absorbed({}, BatchOf(events))
  {
    var batch := BatchOf(events);
    var genesis :| genesis in events && IsGenesis(genesis) && genesis.id == FirstGenesis(events).value;
    RootlessIsGenesis(crypto, batch[genesis.id], events, genesis);
    AbsorbedIsClosed({}, batch);
  }

  /** The batch keeps some event of the genesis id; whichever it is, it has no parents. */
  lemma RootlessIsGenesis(crypto: Crypto, kept: SignedEvent, events: seq<SignedEvent>, genesis: SignedEvent)
    requires kept in events && genesis in events && kept.id == genesis.id && IsGenesis(genesis)
    requires forall e :: e in events ==> ValidEvent(crypto, e)
    requires forall e, f :: e in events && f in events && e.id == f.id ==> e == f
    ensures IsGenesis(kept) && Parents(kept) == {}
  {
    assert ValidEvent(crypto, kept);
  }

  // ------------------------------------------------------------------ reachable nodes

  /** The node after ingesting batches one after the other; a refused batch changes nothing. */
  ghost function AfterBatches(crypto: Crypto, node: NodeState, batches: seq<seq<SignedEvent>>): NodeState
    decreases |batches|
  {
    if batches == [] then node
    else
      var before, last := AfterBatches(crypto, node, batches[..|batches| - 1]), batches[|batches| - 1];
      if IngestFault(crypto, before.community, last).None? then Ingested(before, last) else before
  }

  /** No batch brings an id collision. */
  ghost predicate Coherent(crypto: Crypto, node: NodeState, batches: seq<seq<SignedEvent>>)
    decreases |batches|
  {
    batches == [] ||
    var init, last := batches[..|batches| - 1], batches[|batches| - 1];
    Coherent(crypto, node, init) && NoClash(AfterBatches(crypto, node, init).store, last)
  }

  /** Every node reached by ingesting any batches, refused ones included, is sound. */
  lemma {:induction false} ReachableIsSound(crypto: Crypto, store: Events, batches: seq<seq<SignedEvent>>)
    requires SoundStore(crypto, store) && Coherent(crypto, NodeState(store, None, {}), batches)
    ensures Sound(crypto, AfterBatches(crypto, NodeState(store, None, {}), batches))
    decreases |batches|
  {
    if batches == [] {
      EmptyNodeIsSound(crypto, store);
    } else {
      var init, last := batches[..|batches| - 1], batches[|batches| - 1];
      ReachableIsSound(crypto, store, init);
      var before := AfterBatches(crypto, NodeState(store, None, {}), init);
      if IngestFault(crypto, before.community, last).None? {
        IngestKeepsSound(crypto, before, last);
      }
    }
  }

  /** Whatever batches a node took in, every event it knows is signed by the author it is attributed to. */
  lemma KnownEventsAreSigned(crypto: Crypto, store: Events, batches: seq<seq<SignedEvent>>, id: Id)
    requires SoundStore(crypto, store) && Coherent(crypto, NodeState(store, None, {}), batches)
    requires id in AfterBatches(crypto, NodeState(store, None, {}), batches).known
    ensures var rows := AfterBatches(crypto, NodeState(store, None, {}), batches).store;
            id in rows && rows[id].id == id && SignedByAuthor(crypto, rows[id])
  {
    ReachableIsSound(crypto, store, batches);
    var node := AfterBatches(crypto, NodeState(store, None, {}), batches);
    GroundedHoldsParents(node.store, node.known);
    ValidIsSigned(crypto, node.store[id]);
  }

  /** Started on an empty store, a node has no rows but those it knows. */
  lemma {:induction false} ReachableKnowsItsRows(crypto: Crypto, batches: seq<seq<SignedEvent>>)
    ensures var node := AfterBatches(crypto, NodeState(map[], None, {}), batches); node.store.Keys <= node.known
    decreases |batches|
  {
    if batches != [] {
      var init, last := batches[..|batches| - 1], batches[|batches| - 1];
      ReachableKnowsItsRows(crypto, init);
      OnlyKnownRowsAreWritten(AfterBatches(crypto, NodeState(map[], None, {}), init), last);
    }
  }

  /** Ingestion writes only rows it makes known, so a node started on an empty store has no others. */
  lemma OnlyKnownRowsAreWritten(node: NodeState, events: seq<SignedEvent>)
    requires node.store.Keys <= node.known
    ensures Ingested(node, events).store.Keys <= Ingested(node, events).known
  {
    if CommunityFor(node.community, events).Some? {
      StoredKeys(node.store, BatchOf(events), Absorbed(node.known, BatchOf(events)));
    }
  }

  /** Opening the store again finds the same known ids, if the community's own rows were known. */
  lemma ReopeningRestores(crypto: Crypto, node: NodeState)
    requires Sound(crypto, node) && node.community.Some?
    requires forall i :: i in node.store && Belongs(node.store[i], node.community.value) ==> i in node.known
    ensures (set i | i in node.store && Belongs(node.store[i], node.community.value)) == node.known
  {
    GroundedHoldsParents(node.store, node.known);
  }

  // ------------------------------------------------------------------ heads

  /** The known events as a graph. */
  function KnownGraph(store: Events, known: set<Id>): Causality.Graph
    requires known <= store.Keys
  {
    map k | k in known :: store[k].content.parents
  }

  /** Every known event is a head or an ancestor of one. */
  lemma EveryEventIsBelowAHead(store: Events, known: set<Id>, e: Id) returns (head: Id, walk: seq<Id>)
    requires Grounded(store, known) && e in known
    ensures known <= store.Keys && head in HeadSet(store, known)
    ensures walk != [] && walk[0] == head && walk[|walk| - 1] == e
    ensures Causality.IsWalk(KnownGraph(store, known), walk)
  {
    var rank: map<Id, nat>, bound: nat :| Ranked(store, known, rank, bound);
    head, walk := WalkUp(store, known, rank, bound, e);
  }

  lemma {:induction false} WalkUp(store: Events, known: set<Id>, rank: map<Id, nat>, bound: nat, e: Id)
    returns (head: Id, walk: seq<Id>)
    requires Ranked(store, known, rank, bound) && e in known
    ensures head in HeadSet(store, known)
    ensures walk != [] && walk[0] == head && walk[|walk| - 1] == e
    ensures Causality.IsWalk(KnownGraph(store, known), walk)
    decreases bound - rank[e]
  {
    if child :| child in known && e in Parents(store[child]) {
      var above;
      head, above := WalkUp(store, known, rank, bound, child);
      walk := above + [e];
    } else {
      head, walk := e, [e];
    }
  }

  /** A set that holds the parents of its members holds everything below them. */
  lemma {:induction false} WalksStayInside(store: Events, known: set<Id>, inside: set<Id>, walk: seq<Id>)
    requires known <= store.Keys && Causality.IsWalk(KnownGraph(store, known), walk) && walk != []
    requires walk[0] in inside
    requires forall i, p :: i in inside && i in known && p in Parents(store[i]) ==> p in inside
    ensures walk[|walk| - 1] in inside
  {
    if |walk| > 1 {
      assert walk[1] in KnownGraph(store, known)[walk[0]];
      assert walk[1] in Parents(store[walk[0]]);
      WalksStayInside(store, known, inside, walk[1..]);
    }
  }

  /** Whatever holds the heads and the parents of its members holds every known event. */
  lemma HeadsCoverEverything(store: Events, known: set<Id>, inside: set<Id>)
    requires Grounded(store, known) && known <= store.Keys
    requires HeadSet(store, known) <= inside
    requires forall i, p :: i in inside && i in known && p in Parents(store[i]) ==> p in inside
    ensures known <= inside
  {
    forall e | e in known
      ensures e in inside
    {
      var head, walk := EveryEventIsBelowAHead(store, known, e);
      WalksStayInside(store, known, inside, walk);
    }
  }
}
