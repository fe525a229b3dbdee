/**
 Importing an archive into a node (`ingest_archive`, crates/cli/src/main.rs:543-606): the archive's new
 events, parents first, are ingested in batches of at most 1024.
 */
module Import {
  import opened Wrappers
  import opened Protocol
  import opened Ordering
  import opened Closure
  import opened Node
  import opened NodeTheorems
  import opened SyncMessages
  import opened SyncState
  import opened ByteCount
  import opened Archives
  import Kahn

  datatype ImportError = IncompleteArchive | Refused(cause: NodeError)

  // ------------------------------------------------------------------ orders and closure

  function ParentsOf(pending: Events): (graph: Kahn.Graph)
    ensures graph.Keys == pending.Keys
    ensures forall i :: i in pending ==> Elements(graph[i]) == Parents(pending[i])
  {
    map i | i in pending :: pending[i].content.parents
  }

  /** Whatever can be ordered parents first is absorbed. */
  lemma {:induction false} OrderedIsAbsorbed(known: set<Id>, pending: Events, order: seq<Id>)
    requires Kahn.Topological(known, ParentsOf(pending), order)
    ensures Elements(order) <= known + Absorbed(known, pending)
    decreases |order|
  {
    if order != [] {
      var k := |order| - 1;
      PrefixIsTopological(known, ParentsOf(pending), order, k);
      OrderedIsAbsorbed(known, pending, order[..k]);
      AbsorbedIsClosed(known, pending);
      assert Parents(pending[order[k]]) <= known + Absorbed(known, pending);
      Kahn.ElementsOneMore(order, k);
      assert order[..k + 1] == order;
    }
  }

  lemma PrefixIsTopological(known: set<Id>, graph: Kahn.Graph, order: seq<Id>, k: nat)
    requires Kahn.Topological(known, graph, order) && k <= |order|
    ensures Kahn.Topological(known, graph, order[..k])
  {
    forall j | 0 <= j < k
      ensures Elements(graph[order[..k][j]]) <= known + Elements(order[..k][..j])
    {
      assert order[..k][..j] == order[..j];
    }
  }

  /** An exhaustive order lists exactly what would be absorbed. */
  lemma OrderIsAbsorbed(known: set<Id>, pending: Events, order: seq<Id>)
    requires known !! pending.Keys
    requires Kahn.Topological(known, ParentsOf(pending), order) && Kahn.Exhaustive(known, ParentsOf(pending), order)
    ensures Elements(order) == Absorbed(known, pending)
  {
    OrderedIsAbsorbed(known, pending, order);
    OrderIsPending(known, pending, order);
    AbsorbedIs(known, pending, Elements(order));
    Uncommon(known, Elements(order), Absorbed(known, pending), pending.Keys);
  }

  lemma OrderIsPending(known: set<Id>, pending: Events, order: seq<Id>)
    requires Kahn.Topological(known, ParentsOf(pending), order)
    ensures Elements(order) <= pending.Keys
  {
  }

  lemma Uncommon(known: set<Id>, a: set<Id>, b: set<Id>, pending: set<Id>)
    requires known !! pending && a <= pending && b <= pending && known + a == known + b
    ensures a == b
  {
    forall x | x in a + b
      ensures x in a && x in b
    {
      assert x in known + a && x in known + b;
    }
  }

  // ------------------------------------------------------------------ cycles

  /** Every member of `ring` has a parent in it. */
  ghost predicate Ring(pending: Events, ring: set<Id>) {
    ring != {} && ring <= pending.Keys && forall i :: i in ring ==> Parents(pending[i]) * ring != {}
  }

  /** Events with all parents at hand are absorbed exactly when none of them form a ring. */
  lemma AbsorbedUnlessCyclic(known: set<Id>, pending: Events)
    requires known !! pending.Keys
    requires forall i :: i in pending ==> Parents(pending[i]) <= known + pending.Keys
    ensures Absorbed(known, pending) != pending.Keys <==> exists ring :: Ring(pending, ring)
  {
    if Absorbed(known, pending) != pending.Keys {
      RestIsARing(known, pending);
    }
    if ring :| Ring(pending, ring) {
      RingIsNotAbsorbed(known, pending, ring);
    }
  }

  lemma RestIsARing(known: set<Id>, pending: Events)
    requires known !! pending.Keys && Absorbed(known, pending) != pending.Keys
    requires forall i :: i in pending ==> Parents(pending[i]) <= known + pending.Keys
    ensures Ring(pending, pending.Keys - Absorbed(known, pending))
  {
    var absorbed := Absorbed(known, pending);
    var ring := pending.Keys - absorbed;
    AbsorbedIsClosed(known, pending);
    forall i | i in ring
      ensures Parents(pending[i]) * ring != {}
    {
      var p :| p in Parents(pending[i]) && p !in known + absorbed;
      assert p in Parents(pending[i]) * ring;
    }
  }

  lemma RingIsNotAbsorbed(known: set<Id>, pending: Events, ring: set<Id>)
    requires known !! pending.Keys && Ring(pending, ring)
    ensures Absorbed(known, pending) != pending.Keys
  {
    var whole := known + (pending.Keys - ring);
    forall i | i in pending && i in ring
      ensures !(Parents(pending[i]) <= whole)
    {
      var p :| p in Parents(pending[i]) * ring;
      assert p !in whole;
    }
    AbsorbedIsLeast(known, pending, whole);
    var i :| i in ring;
    assert i !in whole;
  }

  // ------------------------------------------------------------------ one batch

  /** The events still pending after taking the listed ones out, in the order of the list. */
  method TakeOut(left: Events, ids: seq<Id>) returns (batch: seq<SignedEvent>, left': Events)
    requires Kahn.Distinct(ids) && forall k :: 0 <= k < |ids| ==> ids[k] in left
    ensures batch == EventsOf(left, ids) && left' == left - Elements(ids)
  {
    batch, left' := [], left;
    for k := 0 to |ids|
      invariant |batch| == k && forall j :: 0 <= j < k ==> batch[j] == left[ids[j]]
      invariant left' == left - Elements(ids[..k])
    {
      Kahn.NotAmongBefore(ids, k);
      Kahn.ElementsOneMore(ids, k);
      if ids[k] in left' {
        batch := batch + [left'[ids[k]]];
        left' := left' - {ids[k]};
      }
    }
    assert ids[..|ids|] == ids;
  }

  /** A list of events by distinct ids, as a batch. */
  lemma BatchOfIds(all: Events, ids: seq<Id>)
    requires Indexed(all) && forall k :: 0 <= k < |ids| ==> ids[k] in all
    ensures BatchOf(EventsOf(all, ids)) == Only(all, Elements(ids))
  {
    var list, part := EventsOf(all, ids), Only(all, Elements(ids));
    forall e | e in list
      ensures e.id in part && part[e.id] == e
    {
      var k :| 0 <= k < |list| && list[k] == e;
      assert ids[k] in Elements(ids);
    }
    forall i | i in part
      ensures part[i] in list
    {
      var k :| 0 <= k < |ids| && ids[k] == i;
      assert list[k] == part[i];
    }
    BatchIs(part, list, BatchOf(list));
  }

  /** A piece of an order is an order of its own, given what comes before it. */
  lemma PieceIsTopological(known: set<Id>, all: Events, order: seq<Id>, a: nat, b: nat)
    requires Kahn.Topological(known, ParentsOf(all), order) && a <= b <= |order|
    ensures Kahn.Topological(known + Elements(order[..a]), ParentsOf(Only(all, Elements(order[a..b]))), order[a..b])
  {
    var piece := order[a..b];
    var part := Only(all, Elements(piece));
    OrderIsPending(known, all, order);
    OnlyKeys(all, order, a, b);
    forall k | 0 <= k < |piece|
      ensures piece[k] in part
      ensures Elements(ParentsOf(part)[piece[k]]) <= known + Elements(order[..a]) + Elements(piece[..k])
    {
      PlaceInPiece(order, a, b, k);
      assert part[piece[k]] == all[order[a + k]];
    }
  }

  lemma PlaceInPiece(order: seq<Id>, a: nat, b: nat, k: nat)
    requires a <= b <= |order| && k < b - a
    ensures order[a..b][k] == order[a + k] && order[a + k] in Elements(order[a..b])
    ensures Elements(order[..a + k]) == Elements(order[..a]) + Elements(order[a..b][..k])
  {
    assert order[a..b][k] == order[a + k];
    assert order[..a + k] == order[..a] + order[a..b][..k];
    ElementsJoin(order[..a], order[a..b][..k]);
  }

  lemma ElementsJoin(a: seq<Id>, b: seq<Id>)
    ensures Elements(a + b) == Elements(a) + Elements(b)
  {
  }

  /** A piece of an order is absorbed whole. */
  lemma PieceIsAbsorbed(known: set<Id>, all: Events, order: seq<Id>, a: nat, b: nat)
    requires known !! all.Keys && Kahn.Topological(known, ParentsOf(all), order) && a <= b <= |order|
    ensures Absorbed(known + Elements(order[..a]), Only(all, Elements(order[a..b]))) == Elements(order[a..b])
  {
    var before, piece := known + Elements(order[..a]), order[a..b];
    var part := Only(all, Elements(piece));
    PieceIsTopological(known, all, order, a, b);
    OrderedIsAbsorbed(before, part, piece);
    OrderIsPending(known, all, order);
    PiecesAreApart(order, a, b);
    OnlyKeys(all, order, a, b);
  }

  lemma PiecesAreApart(order: seq<Id>, a: nat, b: nat)
    requires Kahn.Distinct(order) && a <= b <= |order|
    ensures Elements(order[..a]) !! Elements(order[a..b])
  {
  }

  lemma OnlyKeys(all: Events, order: seq<Id>, a: nat, b: nat)
    requires Elements(order) <= all.Keys && a <= b <= |order|
    ensures Only(all, Elements(order[a..b])).Keys == Elements(order[a..b]) <= all.Keys
  {
    assert Elements(order[a..b]) <= Elements(order);
  }

  /** Taking in one part and then another is taking in both. */
  lemma TakenInTwice(node: NodeState, all: Events, a: set<Id>, b: set<Id>, community: Id)
    requires a <= all.Keys && b <= all.Keys && a !! b
    ensures Only(all, b).Keys == b
    ensures TakenIn(TakenIn(node, all, a, community), Only(all, b), b, community)
            == TakenIn(node, all, a + b, community)
  {
    assert Only(all, b).Keys == b;
    StoredTwice(node.store, all, a, b);
    GenesisInEither(all, a, b);
    assert node.known + a + b == node.known + (a + b);
  }

  lemma StoredTwice(store: Events, all: Events, a: set<Id>, b: set<Id>)
    requires a <= all.Keys && b <= all.Keys && a !! b
    ensures Only(all, b).Keys == b
    ensures Stored(Stored(store, all, a), Only(all, b), b) == Stored(store, all, a + b)
  {
  }

  lemma GenesisInEither(all: Events, a: set<Id>, b: set<Id>)
    requires a <= all.Keys && b <= all.Keys
    ensures Only(all, b).Keys == b
    ensures (exists i :: i in a + b && IsGenesis(all[i]))
            <==> (exists i :: i in a && IsGenesis(all[i])) || (exists i :: i in b && IsGenesis(Only(all, b)[i]))
  {
    if i :| i in a + b && IsGenesis(all[i]) {
      assert i in a || (i in b && IsGenesis(Only(all, b)[i]));
    }
  }

  // ------------------------------------------------------------------ batch by batch

  /** New events of one community for a node of that community, or for an empty one, and an order of theirs. */
  ghost predicate Importable(crypto: Crypto, community: Id, start: NodeState, all: Events, order: seq<Id>) {
    && Indexed(all) && start.known !! all.Keys
    && (forall i :: i in all ==> ValidEvent(crypto, all[i]) && Belongs(all[i], community))
    && (if start.community.None? then start.known == {} else start.community == Some(community))
    && Kahn.Topological(start.known, ParentsOf(all), order)
  }

  /** The first `at` ids of the order have been taken in. */
  ghost predicate TakenUpTo(
    community: Id, start: NodeState, all: Events, order: seq<Id>, at: nat, node: NodeState, left: Events, inserted: nat)
  {
    && at <= |order| && Elements(order[..at]) <= all.Keys
    && node == TakenIn(start, all, Elements(order[..at]), community)
    && left == all - Elements(order[..at])
    && inserted == |Elements(order[..at]) - start.store.Keys|
  }

  lemma TakingBegins(community: Id, start: NodeState, all: Events, order: seq<Id>)
    ensures TakenUpTo(community, start, all, order, 0, start, all, 0)
  {
    assert Elements(order[..0]) == {};
    TakenInNothing(start, all, community);
    assert all - {} == all;
  }

  /** The first id of an order for an empty node is the genesis. */
  lemma GenesisComesFirst(crypto: Crypto, community: Id, start: NodeState, all: Events, order: seq<Id>)
    requires Importable(crypto, community, start, all, order) && start.community.None? && order != []
    ensures order[0] in all && IsGenesis(all[order[0]]) && order[0] == community
  {
    assert order[..0] == [];
    assert Elements(ParentsOf(all)[order[0]]) <= {};
    ParentlessIsGenesis(crypto, all[order[0]]);
  }

  lemma ParentlessIsGenesis(crypto: Crypto, event: SignedEvent)
    requires ValidEvent(crypto, event) && Elements(event.content.parents) <= {}
    ensures IsGenesis(event)
  {
    if event.content.parents != [] {
      NonEmpty(event.content.parents);
    }
  }

  /** Whatever has been taken in, the next batch is ingested for the community. */
  lemma CommunityOfBatch(
    crypto: Crypto, community: Id, start: NodeState, all: Events, order: seq<Id>, at: nat, node: NodeState,
    batch: seq<SignedEvent>)
    requires Importable(crypto, community, start, all, order) && at < |order| && Elements(order[..at]) <= all.Keys
    requires node.community == TakenIn(start, all, Elements(order[..at]), community).community
    requires order[at] in all && all[order[at]] in batch
    requires forall e :: e in batch ==> Belongs(e, community)
    ensures CommunityFor(node.community, batch) == Some(community)
  {
    if start.community.None? {
      GenesisComesFirst(crypto, community, start, all, order);
      if at > 0 {
        assert order[0] in Elements(order[..at]);
      } else {
        assert IsGenesis(all[order[at]]);
        assert FirstGenesis(batch).Some?;
      }
    }
  }

  lemma BatchEvents(crypto: Crypto, community: Id, all: Events, ids: seq<Id>)
    requires forall k :: 0 <= k < |ids| ==> ids[k] in all
    requires forall i :: i in all ==> ValidEvent(crypto, all[i]) && Belongs(all[i], community)
    ensures FirstFault(crypto, EventsOf(all, ids)).None? && AllBelong(EventsOf(all, ids), community)
  {
    var list := EventsOf(all, ids);
    forall e | e in list
      ensures ValidEvent(crypto, e) && Belongs(e, community)
    {
      var k :| 0 <= k < |list| && list[k] == e;
      assert all[ids[k]] == e;
    }
  }

  lemma IdsInOrder(known: set<Id>, all: Events, order: seq<Id>, a: nat, b: nat)
    requires Kahn.Topological(known, ParentsOf(all), order) && a <= b <= |order|
    ensures Elements(order[..a]) <= all.Keys && Elements(order[a..b]) <= all.Keys
    ensures Elements(order[..a]) !! Elements(order[a..b])
    ensures Elements(order[..b]) == Elements(order[..a]) + Elements(order[a..b])
  {
    OrderIsPending(known, all, order);
    PiecesAreApart(order, a, b);
    ElementsOfPieces(order, a, b);
  }

  lemma ElementsOfPieces(order: seq<Id>, a: nat, b: nat)
    requires a <= b <= |order|
    ensures Elements(order[a..b]) <= Elements(order) && Elements(order[..a]) <= Elements(order)
    ensures Elements(order[..b]) == Elements(order[..a]) + Elements(order[a..b])
  {
    assert order[..b] == order[..a] + order[a..b];
    ElementsJoin(order[..a], order[a..b]);
  }

  /** The ids of the next batch are distinct and still pending. */
  lemma NextIds(known: set<Id>, all: Events, order: seq<Id>, a: nat, b: nat)
    requires Kahn.Topological(known, ParentsOf(all), order) && a <= b <= |order|
    ensures Kahn.Distinct(order[a..b])
    ensures forall k :: 0 <= k < b - a ==> order[a..b][k] in all && order[a..b][k] in all - Elements(order[..a])
  {
    IdsInOrder(known, all, order, a, b);
    forall k | 0 <= k < b - a
      ensures order[a..b][k] in all && order[a..b][k] in all - Elements(order[..a])
    {
      PlaceInPiece(order, a, b, k);
    }
  }

  /** The next batch of at most 1024 ids is not refused, and all of it is absorbed. */
  lemma BatchIsTaken(
    crypto: Crypto, community: Id, start: NodeState, all: Events, order: seq<Id>, a: nat, b: nat, node: NodeState)
    requires Importable(crypto, community, start, all, order) && a < b <= |order| && b - a <= MAX_PENDING_EVENTS
    requires forall k :: 0 <= k < b - a ==> order[a..b][k] in all
    requires Elements(order[..a]) <= all.Keys && node == TakenIn(start, all, Elements(order[..a]), community)
    ensures var batch := EventsOf(all, order[a..b]);
            && IngestFault(crypto, node.community, batch).None?
            && BatchOf(batch) == Only(all, Elements(order[a..b]))
            && Absorbed(node.known, BatchOf(batch)) == Elements(order[a..b])
            && CommunityFor(node.community, batch) == Some(community)
  {
    var ids := order[a..b];
    var batch := EventsOf(all, ids);
    BatchEvents(crypto, community, all, ids);
    assert ids[0] == order[a] && batch[0] == all[order[a]];
    CommunityOfBatch(crypto, community, start, all, order, a, node, batch);
    BatchOfIds(all, ids);
    PieceIsAbsorbed(start.known, all, order, a, b);
  }

  lemma IngestedBatch(node: NodeState, batch: seq<SignedEvent>, all: Events, ids: set<Id>, community: Id)
    requires CommunityFor(node.community, batch) == Some(community) && Only(all, ids).Keys == ids
    requires BatchOf(batch) == Only(all, ids) && Absorbed(node.known, BatchOf(batch)) == ids
    ensures Ingested(node, batch) == TakenIn(node, Only(all, ids), ids, community)
  {
  }

  lemma CountsAdd(a: set<Id>, b: set<Id>, stored: set<Id>)
    requires a !! b
    ensures |(a + b) - stored| == |a - stored| + |b - (stored + a)|
  {
    assert (a + b) - stored == (a - stored) + (b - (stored + a));
  }

  lemma BatchIsIngested(
    crypto: Crypto, community: Id, start: NodeState, all: Events, order: seq<Id>, a: nat, b: nat, node: NodeState,
    batch: seq<SignedEvent>)
    requires Importable(crypto, community, start, all, order) && a < b <= |order| && b - a <= MAX_PENDING_EVENTS
    requires forall k :: 0 <= k < b - a ==> order[a..b][k] in all
    requires Elements(order[..a]) <= all.Keys && node == TakenIn(start, all, Elements(order[..a]), community)
    requires batch == EventsOf(all, order[a..b])
    ensures var ids := Elements(order[a..b]);
            && Only(all, ids).Keys == ids && Ingested(node, batch) == TakenIn(node, Only(all, ids), ids, community)
            && IngestFault(crypto, node.community, batch).None?
            && BatchOf(batch).Keys == ids && Absorbed(node.known, BatchOf(batch)) == ids
  {
    BatchIsTaken(crypto, community, start, all, order, a, b, node);
    OrderIsPending(start.known, all, order);
    OnlyKeys(all, order, a, b);
    IngestedBatch(node, batch, all, Elements(order[a..b]), community);
  }

  lemma TakenOneMore(
    community: Id, start: NodeState, all: Events, order: seq<Id>, a: nat, b: nat,
    node: NodeState, left: Events, inserted: nat, node': NodeState)
    requires a <= b <= |order| && TakenUpTo(community, start, all, order, a, node, left, inserted)
    requires Elements(order[a..b]) <= all.Keys && Elements(order[..a]) !! Elements(order[a..b])
    requires Elements(order[..b]) == Elements(order[..a]) + Elements(order[a..b])
    requires var ids := Elements(order[a..b]);
             Only(all, ids).Keys == ids && node' == TakenIn(node, Only(all, ids), ids, community)
    ensures var ids := Elements(order[a..b]);
            TakenUpTo(community, start, all, order, b, node', left - ids, inserted + |ids - node.store.Keys|)
  {
    var ids, before := Elements(order[a..b]), Elements(order[..a]);
    TakenInTwice(start, all, before, ids, community);
    StoredKeys(start.store, all, before);
    CountsAdd(before, ids, start.store.Keys);
    LeftAfter(all, before, ids);
  }

  lemma LeftAfter(all: Events, a: set<Id>, b: set<Id>)
    ensures all - a - b == all - (a + b)
  {
  }

  lemma LeftRows(all: Events, left: Events, before: set<Id>, ids: seq<Id>)
    requires left == all - before && forall k :: 0 <= k < |ids| ==> ids[k] in all && ids[k] in left
    ensures EventsOf(left, ids) == EventsOf(all, ids)
  {
  }

  /** Takes one batch out of `left` and has the node ingest it. */
  method IngestBatch(
    crypto: Crypto, ghost community: Id, ghost start: NodeState, ghost all: Events, order: seq<Id>, a: nat, b: nat,
    core: CoreNode, left: Events, inserted: nat)
    returns (left': Events, inserted': nat)
    requires Importable(crypto, community, start, all, order) && a < b <= |order| && b - a <= MAX_PENDING_EVENTS
    requires TakenUpTo(community, start, all, order, a, core.View(), left, inserted)
    modifies core
    ensures TakenUpTo(community, start, all, order, b, core.View(), left', inserted')
  {
    var ids := order[a..b];
    NextIds(start.known, all, order, a, b);
    LeftRows(all, left, Elements(order[..a]), ids);
    var batch;
    batch, left' := TakeOut(left, ids);
    IdsInOrder(start.known, all, order, a, b);
    ghost var node := core.View();
    BatchIsIngested(crypto, community, start, all, order, a, b, node, batch);
    var r := core.Ingest(crypto, batch);
    assert r.Ok? && r.value.unresolved == [] by {
      assert BatchOf(batch).Keys - Absorbed(node.known, BatchOf(batch)) == {};
    }
    inserted' := inserted + r.value.inserted;
    TakenOneMore(community, start, all, order, a, b, node, left, inserted, core.View());
  }

  /** All batches: `chunks(1024)` of the order. */
  method IngestInBatches(
    crypto: Crypto, ghost community: Id, ghost start: NodeState, all: Events, order: seq<Id>, core: CoreNode)
    returns (inserted: nat)
    requires Importable(crypto, community, start, all, order) && core.View() == start
    modifies core
    ensures Elements(order) <= all.Keys && core.View() == TakenIn(start, all, Elements(order), community)
    ensures inserted == |Elements(order) - start.store.Keys|
  {
    var at, left := 0, all;
    inserted := 0;
    TakingBegins(community, start, all, order);
    while at < |order|
      invariant TakenUpTo(community, start, all, order, at, core.View(), left, inserted)
    {
      var next := NextStop(at, |order|);
      left, inserted := IngestBatch(crypto, community, start, all, order, at, next, core, left, inserted);
      at := next;
    }
    TakingEnds(community, start, all, order, at, core.View(), left, inserted);
  }

  lemma TakingEnds(
    community: Id, start: NodeState, all: Events, order: seq<Id>, at: nat, node: NodeState, left: Events, inserted: nat)
    requires TakenUpTo(community, start, all, order, at, node, left, inserted) && at == |order|
    ensures Elements(order) <= all.Keys && node == TakenIn(start, all, Elements(order), community)
    ensures inserted == |Elements(order) - start.store.Keys|
  {
    assert order[..at] == order;
  }

  function NextStop(at: nat, end: nat): (next: nat)
    requires at < end
    ensures at < next <= end && next - at <= MAX_PENDING_EVENTS && (next == end || next == at + MAX_PENDING_EVENTS)
  {
    if end - at <= MAX_PENDING_EVENTS then end else at + MAX_PENDING_EVENTS
  }

  // ------------------------------------------------------------------ the whole import

  /** How many of the events are known already. */
  function CountKnown(events: seq<SignedEvent>, known: set<Id>): nat {
    if events == [] then 0 else (if events[0].id in known then 1 else 0) + CountKnown(events[1..], known)
  }

  /** The archive's events that the node does not know. */
  function NewEvents(events: seq<SignedEvent>, known: set<Id>): Events {
    BatchOf(events) - known
  }

  ghost predicate AllOf(crypto: Crypto, community: Id, events: seq<SignedEvent>) {
    forall e :: e in events ==> ValidEvent(crypto, e) && Belongs(e, community)
  }

  /** A node that is empty, or of the community. */
  ghost predicate OpenTo(community: Id, node: NodeState) {
    if node.community.None? then node.known == {} else node.community == Some(community)
  }

  lemma NewEventsAre(crypto: Crypto, community: Id, events: seq<SignedEvent>, known: set<Id>)
    requires AllOf(crypto, community, events)
    ensures var all := NewEvents(events, known);
            && Indexed(all) && known !! all.Keys
            && (forall i :: i in all ==> ValidEvent(crypto, all[i]) && Belongs(all[i], community))
            && Kahn.DistinctParents(ParentsOf(all))
  {
    var all := NewEvents(events, known);
    forall i | i in all
      ensures all[i].id == i && ValidEvent(crypto, all[i]) && Belongs(all[i], community)
      ensures Kahn.Distinct(all[i].content.parents)
    {
      assert all[i] in events;
      ParentsAreDistinct(crypto, all[i]);
    }
  }

  lemma ParentsAreDistinct(crypto: Crypto, event: SignedEvent)
    requires ValidEvent(crypto, event)
    ensures Kahn.Distinct(event.content.parents)
  {
  }

  /** An event with a parent nobody has is never absorbed. */
  lemma OrphanIsNotAbsorbed(known: set<Id>, all: Events, i: Id)
    requires Kahn.Orphaned(known, ParentsOf(all), i)
    ensures Absorbed(known, all) != all.Keys
  {
    if i in Absorbed(known, all) {
      AbsorbedHasParents(known, all, i);
    }
  }

  /** An order shorter than the collection leaves something out. */
  lemma LengthDecides(known: set<Id>, all: Events, order: seq<Id>)
    requires known !! all.Keys
    requires Kahn.Topological(known, ParentsOf(all), order) && Kahn.Exhaustive(known, ParentsOf(all), order)
    ensures |order| == |all| <==> Absorbed(known, all) == all.Keys
    ensures |order| == |all| ==> Elements(order) == all.Keys
  {
    OrderIsAbsorbed(known, all, order);
    OrderIsPending(known, all, order);
    Kahn.DistinctFits(order, all.Keys);
  }

  /** The order in which the new events are ingested, if all of them can be. */
  method FindOrder(crypto: Crypto, ghost community: Id, known: set<Id>, all: Events) returns (order: Option<seq<Id>>)
    requires known !! all.Keys && Kahn.DistinctParents(ParentsOf(all))
    ensures order.Some? <==> Absorbed(known, all) == all.Keys
    ensures order.Some? ==> Kahn.Topological(known, ParentsOf(all), order.value) && Elements(order.value) == all.Keys
  {
    var graph := ParentsOf(all);
    var ok, remaining, children := Kahn.CountParents(known, graph);
    if !ok {
      ghost var i :| i in graph && Kahn.Orphaned(known, graph, i);
      OrphanIsNotAbsorbed(known, all, i);
      return None;
    }
    var found := Kahn.Sort(known, graph, remaining, children);
    LengthDecides(known, all, found);
    return if |found| != |all| then None else Some(found);
  }

  /**
   `ingest_archive`: all or nothing. It succeeds exactly when parent closure takes in every new event,
   and then the node knows them all; otherwise the node is as it was.
   */
  method IngestArchive(crypto: Crypto, ghost community: Id, core: CoreNode, events: seq<SignedEvent>)
    returns (r: Result<(nat, nat), ImportError>)
    requires AllOf(crypto, community, events) && OpenTo(community, core.View())
    modifies core
    ensures var all := NewEvents(events, old(core.known));
            && (r.Ok? <==> Absorbed(old(core.known), all) == all.Keys)
            && (r.Err? ==> r.error == IncompleteArchive && core.View() == old(core.View()))
            && (r.Ok? ==>
                  && core.View() == TakenIn(old(core.View()), all, all.Keys, community)
                  && r.value.0 == |all.Keys - old(core.store).Keys|
                  && r.value.1 == CountKnown(events, old(core.known)))
  {
    var already := CountKnown(events, core.known);
    var all := NewEvents(events, core.known);
    NewEventsAre(crypto, community, events, core.known);
    var order := FindOrder(crypto, community, core.known, all);
    if order.None? {
      return Err(IncompleteArchive);
    }
    ghost var start := core.View();
    assert Importable(crypto, community, start, all, order.value);
    var inserted := IngestInBatches(crypto, community, start, all, order.value, core);
    return Ok((inserted, already));
  }

  /** In a valid archive the events known already are counted once each. */
  lemma {:induction false} CountKnownCounts(events: seq<SignedEvent>, known: set<Id>)
    requires SortedEvents(events)
    ensures CountKnown(events, known) == |IdsOf(events) * known|
  {
    if events != [] {
      var first, rest := events[0], events[1..];
      CountKnownCounts(rest, known);
      assert forall e :: e in rest ==> first.id < e.id;
      assert events == [first] + rest;
      IdsOfMore(first, rest, known);
    } else {
      assert IdsOf(events) * known == {};
    }
  }

  lemma IdsOfMore(first: SignedEvent, rest: seq<SignedEvent>, known: set<Id>)
    requires forall e :: e in rest ==> first.id < e.id
    ensures |IdsOf([first] + rest) * known| == |IdsOf(rest) * known| + if first.id in known then 1 else 0
  {
    IdsOfCons(first, rest);
    assert first.id !in IdsOf(rest);
    CountOneMore(IdsOf(rest), first.id, known);
  }

  lemma IdsOfCons(first: SignedEvent, rest: seq<SignedEvent>)
    ensures IdsOf([first] + rest) == IdsOf(rest) + {first.id}
  {
    assert first in [first] + rest;
  }

  lemma CountOneMore(ids: set<Id>, id: Id, known: set<Id>)
    requires id !in ids
    ensures |(ids + {id}) * known| == |ids * known| + if id in known then 1 else 0
  {
    assert (ids + {id}) * known == ids * known + if id in known then {id} else {};
  }

  /** A valid archive is refused exactly when some of its new events form a ring. */
  lemma OnlyRingsAreRefused(crypto: Crypto, community: Id, events: seq<SignedEvent>, known: set<Id>)
    requires Wholesome(crypto, community, events)
    ensures var all := NewEvents(events, known);
            Absorbed(known, all) != all.Keys <==> exists ring :: Ring(all, ring)
  {
    var all := NewEvents(events, known);
    forall i | i in all
      ensures Parents(all[i]) <= known + all.Keys
    {
      assert all[i] in events;
      ParentsAreAtHand(events, known, all[i]);
    }
    AbsorbedUnlessCyclic(known, all);
  }

  lemma ParentsAreAtHand(events: seq<SignedEvent>, known: set<Id>, e: SignedEvent)
    requires ParentsPresent(events) && e in events
    ensures Parents(e) <= known + NewEvents(events, known).Keys
  {
    forall p | p in Parents(e)
      ensures p in known + NewEvents(events, known).Keys
    {
      assert p in e.content.parents;
      assert p in IdsOf(events);
      var f :| f in events && f.id == p;
      assert f.id in BatchOf(events);
    }
  }

  // ------------------------------------------------------------------ the round trip

  /** The known rows of a node, as a collection. */
  lemma ExportAsBatch(crypto: Crypto, node: NodeState)
    requires Sound(crypto, node)
    ensures NewEvents(Export(node), {}) == Only(node.store, node.known)
    ensures Only(node.store, node.known).Keys == node.known
  {
    ExportIsKnown(crypto, node);
    ListingAsBatch(node.store, node.known, Export(node));
  }

  lemma ListingAsBatch(store: Events, known: set<Id>, list: seq<SignedEvent>)
    requires known <= store.Keys && Indexed(store)
    requires forall e :: e in list <==> e.id in known && store[e.id] == e
    ensures NewEvents(list, {}) == Only(store, known) && Only(store, known).Keys == known
  {
    var part := Only(store, known);
    forall i | i in part
      ensures part[i] in list
    {
      assert store[i].id == i;
    }
    BatchIs(part, list, BatchOf(list));
    assert part - {} == part;
  }

  lemma ExportIsOfCommunity(crypto: Crypto, node: NodeState)
    requires Sound(crypto, node) && node.community.Some?
    ensures AllOf(crypto, node.community.value, Export(node))
  {
    ExportIsKnown(crypto, node);
    forall e | e in Export(node)
      ensures ValidEvent(crypto, e) && Belongs(e, node.community.value)
    {
      ExportBelongs(crypto, node, e);
    }
  }

  /**
   Exporting a sound node and importing into an empty one succeeds and reproduces the community,
   the known ids and their rows.
   */
  lemma RoundTrip(crypto: Crypto, node: NodeState)
    requires Sound(crypto, node) && node.community.Some?
    ensures AllOf(crypto, node.community.value, Export(node)) && OpenTo(node.community.value, Empty())
    ensures var all := NewEvents(Export(node), Empty().known);
            && Absorbed(Empty().known, all) == all.Keys
            && TakenIn(Empty(), all, all.Keys, node.community.value)
               == NodeState(Only(node.store, node.known), node.community, node.known)
  {
    ExportIsOfCommunity(crypto, node);
    ExportAsBatch(crypto, node);
    EverythingIsAbsorbed(node.store, node.known, NewEvents(Export(node), {}));
    RebuiltNode(crypto, node, NewEvents(Export(node), {}));
  }

  /** A node opened on an empty store. */
  function Empty(): NodeState {
    NodeState(map[], None, {})
  }

  lemma EverythingIsAbsorbed(store: Events, known: set<Id>, all: Events)
    requires Grounded(store, known) && all == Only(store, known) && all.Keys == known
    ensures Absorbed({}, all) == all.Keys
  {
    AbsorbedIsClosed({}, all);
    assert forall i :: i in all ==> all[i] == store[i];
    GroundedInduction(store, known, {} + Absorbed({}, all));
  }

  lemma RebuiltNode(crypto: Crypto, node: NodeState, all: Events)
    requires Sound(crypto, node) && node.community.Some?
    requires all == Only(node.store, node.known) && all.Keys == node.known
    ensures TakenIn(Empty(), all, all.Keys, node.community.value)
            == NodeState(all, node.community, node.known)
  {
    GenesisIsKnown(crypto, node);
    var g: Id :| g in node.known && g in node.store && IsGenesis(node.store[g]);
    assert g in all.Keys && IsGenesis(all[g]);
    assert Stored(map[], all, all.Keys) == all;
    assert {} + all.Keys == node.known;
  }
}
