/**
 A synchronizing peer as a value: when it refuses a message, what it answers and what it becomes
 (crates/sync/src/lib.rs).
 */
module SyncState {
  import opened Wrappers
  import opened Protocol
  import opened Ordering
  import opened Closure
  import opened Node
  import opened NodeTheorems
  import opened SyncMessages
  import opened ByteCount

  const MAX_PENDING_SYNC_EVENTS := 1024

  datatype Peer = Peer(node: NodeState, community: Id, pending: Events, quota: Option<nat>)

  /** Ids the peer knows or holds back. */
  function Seen(peer: Peer): set<Id> {
    peer.node.known + peer.pending.Keys
  }

  // ------------------------------------------------------------------ refusals

  /** The delivered events that are new to the peer. */
  function NewOnes(peer: Peer, events: seq<SignedEvent>): Events {
    BatchOf(events) - Seen(peer)
  }

  /** Stored, pending and incoming bytes against the quota. */
  predicate OverQuota(peer: Peer, events: seq<SignedEvent>) {
    && peer.quota.Some?
    && Total(peer.node.store) + Total(peer.pending) + Total(NewOnes(peer, events)) > peer.quota.value
  }

  function AcceptFault(peer: Peer, events: seq<SignedEvent>): Option<SyncError> {
    if !AllBelong(events, peer.community) then Some(SyncError.WrongCommunity)
    else if |peer.pending| + |NewOnes(peer, events)| > MAX_PENDING_SYNC_EVENTS then Some(ItemLimitExceeded)
    else if OverQuota(peer, events) then Some(StorageQuotaExceeded(peer.quota.value))
    else None
  }

  lemma NewOnesAre(peer: Peer, events: seq<SignedEvent>)
    ensures NewOnes(peer, events) == BatchOf(events) - peer.node.known - peer.pending.Keys
  {
  }

  lemma AllBelongIs(events: seq<SignedEvent>, community: Id)
    ensures AllBelong(events, community) <==>
              forall e :: e in events ==>
                match e.content.community case None => e.id == community case Some(c) => c == community
  {
  }

  lemma NoFaultMeans(peer: Peer, events: seq<SignedEvent>)
    ensures AcceptFault(peer, events) == None <==>
              && AllBelong(events, peer.community)
              && |peer.pending| + |NewOnes(peer, events)| <= 1024
              && (peer.quota == None
                  || Total(peer.node.store) + Total(peer.pending) + Total(NewOnes(peer, events)) <= peer.quota.value)
  {
  }

  /**
   A delivery is taken exactly when its events are of the community, at most 1024 events are pending with it,
   and the bytes stored, pending and incoming are within the quota, if there is one.
   */
  lemma DeliveryIsTaken(peer: Peer, events: seq<SignedEvent>, incoming: Events)
    requires incoming == BatchOf(events) - peer.node.known - peer.pending.Keys
    ensures AcceptFault(peer, events) == None <==>
              && (forall e :: e in events ==>
                    match e.content.community case None => e.id == peer.community case Some(c) => c == peer.community)
              && |peer.pending| + |incoming| <= 1024
              && (peer.quota == None
                  || Total(peer.node.store) + Total(peer.pending) + Total(incoming) <= peer.quota.value)
  {
    NewOnesAre(peer, events);
    AllBelongIs(events, peer.community);
    NoFaultMeans(peer, events);
  }

  /** Each reason for refusing a delivery means that its check fails and the checks before it pass. */
  lemma DeliveryRefusalIs(peer: Peer, events: seq<SignedEvent>)
    ensures var ours := AllBelong(events, peer.community);
            var few := |peer.pending| + |NewOnes(peer, events)| <= 1024;
            match AcceptFault(peer, events)
            case None => ours && few
            case Some(WrongCommunity) => !ours
            case Some(ItemLimitExceeded) => ours && !few
            case Some(StorageQuotaExceeded(limit)) =>
              && ours && few && peer.quota == Some(limit)
              && Total(peer.node.store) + Total(peer.pending) + Total(NewOnes(peer, events)) > limit
            case _ => false
  {
  }

  /** Why `receive` fails, if it does. */
  function ReceiveFault(crypto: Crypto, peer: Peer, message: SyncMessage): Option<SyncError> {
    if MessageFault(crypto, message).Some? then MessageFault(crypto, message)
    else if message.community != peer.community then Some(SyncError.WrongCommunity)
    else if message.Deliver? then AcceptFault(peer, message.events)
    else None
  }

  /** A message is taken exactly when it is valid, of the community, and no delivery that is refused. */
  lemma ReceiptIs(crypto: Crypto, peer: Peer, message: SyncMessage)
    ensures ReceiveFault(crypto, peer, message) == None <==>
              && ValidMessage(crypto, message) && message.community == peer.community
              && (message.Deliver? ==> AcceptFault(peer, message.events) == None)
    ensures !ValidMessage(crypto, message) ==> ReceiveFault(crypto, peer, message) == MessageFault(crypto, message)
    ensures ValidMessage(crypto, message) && message.community != peer.community ==>
              ReceiveFault(crypto, peer, message) == Some(SyncError.WrongCommunity)
    ensures ValidMessage(crypto, message) && message.community == peer.community && message.Deliver? ==>
              ReceiveFault(crypto, peer, message) == AcceptFault(peer, message.events)
  {
  }

  // ------------------------------------------------------------------ answers

  function WantMessages(community: Id, ids: seq<Id>): (messages: seq<SyncMessage>)
    ensures forall m :: m in messages ==> m.Want? && m.community == community
  {
    var chunks := Chunks(ids, MAX_IDS_PER_MESSAGE);
    seq(|chunks|, i requires 0 <= i < |chunks| => Want(community, chunks[i]))
  }

  /** The heads in chunks; a peer without heads says so in one message. */
  function HeadMessages(community: Id, heads: seq<Id>): (messages: seq<SyncMessage>)
    ensures messages != [] && forall m :: m in messages ==> m.Heads? && m.community == community
  {
    if heads == [] then [Heads(community, [])]
    else
      var chunks := Chunks(heads, MAX_IDS_PER_MESSAGE);
      seq(|chunks|, i requires 0 <= i < |chunks| => Heads(community, chunks[i]))
  }

  /** The ids the peer has neither stored nor pending, in order. */
  function Unseen(peer: Peer, ids: seq<Id>): (r: seq<Id>)
    ensures Elements(r) == Elements(ids) - Seen(peer)
    ensures StrictlySorted(ids) ==> StrictlySorted(r)
  {
    if ids == [] then []
    else
      var rest := Unseen(peer, ids[1..]);
      UnseenStep(peer, ids, rest);
      if ids[0] in Seen(peer) then rest else [ids[0]] + rest
  }

  lemma UnseenStep(peer: Peer, ids: seq<Id>, rest: seq<Id>)
    requires ids != [] && Elements(rest) == Elements(ids[1..]) - Seen(peer)
    requires StrictlySorted(ids[1..]) ==> StrictlySorted(rest)
    ensures var r := if ids[0] in Seen(peer) then rest else [ids[0]] + rest;
            && Elements(r) == Elements(ids) - Seen(peer)
            && (StrictlySorted(ids) ==> StrictlySorted(r))
  {
    assert ids == [ids[0]] + ids[1..];
    assert Elements(ids) == {ids[0]} + Elements(ids[1..]);
    assert Elements([ids[0]] + rest) == {ids[0]} + Elements(rest);
    if StrictlySorted(ids) {
      assert forall i :: 0 <= i < |ids| - 1 ==> ids[1..][i] == ids[i + 1] && ids[0] < ids[i + 1];
      SortedPrepend(ids[0], rest);
    }
  }

  /** Parents of pending events that are neither known nor pending. */
  function Missing(known: set<Id>, pending: Events): set<Id> {
    set i, p | i in pending && p in pending[i].content.parents && p !in known && p !in pending :: p
  }

  // ------------------------------------------------------------------ taking events in

  /** What is pending once the new events have been added. */
  function Collected(peer: Peer, events: seq<SignedEvent>): Events {
    peer.pending + NewOnes(peer, events)
  }

  /** A collection as a list in id order. */
  function ListOf(events: Events): (list: seq<SignedEvent>)
    ensures forall e :: e in list ==> exists i :: i in events && events[i] == e
    ensures |list| == |events|
  {
    var ids := Ascending(events.Keys);
    assert forall i :: 0 <= i < |ids| ==> ids[i] in Elements(ids);
    EventsOf(events, ids)
  }

  predicate CanIngest(peer: Peer, all: Events) {
    && all != map[]
    && (peer.node.community.Some? || exists i :: i in all && IsGenesis(all[i]) && i == peer.community)
  }

  ghost function NodeAfter(peer: Peer, all: Events): NodeState {
    if CanIngest(peer, all) then Ingested(peer.node, ListOf(all)) else peer.node
  }

  /** The peer after accepting a delivery. */
  ghost function Accepted(peer: Peer, events: seq<SignedEvent>): Peer {
    var all := Collected(peer, events);
    var node := NodeAfter(peer, all);
    Peer(node, peer.community, all - node.known, peer.quota)
  }

  /** The peer's state and answers after a message it does not refuse. */
  ghost predicate Responds(
    crypto: Crypto, peer: Peer, message: SyncMessage, peer': Peer, out: seq<SyncMessage>)
    requires peer.node.known <= peer.node.store.Keys
  {
    match message
    case Hello(_, _, _) =>
      peer' == peer && out == HeadMessages(peer.community, Ascending(HeadSet(peer.node.store, peer.node.known)))
    case Heads(_, ids) =>
      peer' == peer && out == WantMessages(peer.community, Unseen(peer, ids))
    case Want(_, ids) =>
      var events := StoredEvents(peer.node.store, ids);
      peer' == peer && if events == [] then out == [] else PackedAs(crypto, peer.community, events, out)
    case Deliver(_, events) =>
      && peer' == Accepted(peer, events)
      && out == WantMessages(peer.community, Ascending(Missing(peer'.node.known, peer'.pending)))
  }

  // ------------------------------------------------------------------ sound peers

  /** Pending events are valid, of the community, filed under their ids, and not known. */
  ghost predicate SoundPending(crypto: Crypto, community: Id, known: set<Id>, pending: Events) {
    forall i :: i in pending ==>
      pending[i].id == i && ValidEvent(crypto, pending[i]) && Belongs(pending[i], community) && i !in known
  }

  /** The shape of every peer reached by `receive`. */
  ghost predicate SoundPeer(crypto: Crypto, peer: Peer) {
    && Sound(crypto, peer.node)
    && (peer.node.community.Some? ==> peer.node.community.value == peer.community)
    && SoundPending(crypto, peer.community, peer.node.known, peer.pending)
    && |peer.pending| <= MAX_PENDING_SYNC_EVENTS
    && Ready(peer.node.known, peer.pending) == {}
    && forall i :: i in peer.pending && i in peer.node.store ==> peer.node.store[i] == peer.pending[i]
  }

  /** Delivered events do not collide with what the peer stores or holds. */
  ghost predicate NoClashWith(peer: Peer, events: seq<SignedEvent>) {
    && NoClash(peer.node.store, events)
    && forall e :: e in events && e.id in peer.pending ==> peer.pending[e.id] == e
  }

  lemma InListIsOwn(all: Events, e: SignedEvent)
    requires Indexed(all) && e in ListOf(all)
    ensures e.id in all && all[e.id] == e
  {
  }

  lemma OwnIsInList(all: Events, i: Id)
    requires i in all
    ensures all[i] in ListOf(all)
  {
    var ids := Ascending(all.Keys);
    assert i in Elements(ids);
    var k :| 0 <= k < |ids| && ids[k] == i;
    assert ListOf(all)[k] == all[i];
  }

  lemma BatchOfList(all: Events)
    requires Indexed(all)
    ensures BatchOf(ListOf(all)) == all
  {
    var list := ListOf(all);
    forall e | e in list
      ensures e.id in all && all[e.id] == e
    {
      InListIsOwn(all, e);
    }
    forall i | i in all
      ensures all[i] in list
    {
      OwnIsInList(all, i);
    }
    BatchIs(all, list, BatchOf(list));
  }

  lemma BatchIs(all: Events, list: seq<SignedEvent>, batch: Events)
    requires Indexed(all)
    requires forall e :: e in list ==> e.id in all && all[e.id] == e
    requires forall i :: i in all ==> all[i] in list
    requires forall i :: i in batch ==> batch[i] in list && batch[i].id == i
    requires forall e :: e in list ==> e.id in batch
    ensures batch == all
  {
    assert forall i :: i in batch ==> i in all && batch[i] == all[i];
    assert forall i :: i in all ==> i in batch;
  }

  lemma CollectedSize(pending: Events, new_: Events)
    requires pending.Keys !! new_.Keys
    ensures |pending + new_| == |pending| + |new_|
  {
    assert (pending + new_).Keys == pending.Keys + new_.Keys;
    assert |pending.Keys + new_.Keys| == |pending.Keys| + |new_.Keys|;
  }

  lemma CollectedContent(crypto: Crypto, peer: Peer, events: seq<SignedEvent>)
    requires SoundPeer(crypto, peer) && NoClashWith(peer, events)
    requires FirstFault(crypto, events).None? && AllBelong(events, peer.community)
    ensures SoundPending(crypto, peer.community, peer.node.known, Collected(peer, events))
    ensures forall i :: i in Collected(peer, events) && i in peer.node.store ==>
              peer.node.store[i] == Collected(peer, events)[i]
  {
    var batch, all := BatchOf(events), Collected(peer, events);
    forall i | i in all
      ensures all[i].id == i && ValidEvent(crypto, all[i]) && Belongs(all[i], peer.community) && i !in peer.node.known
      ensures i in peer.node.store ==> peer.node.store[i] == all[i]
    {
      if i !in peer.pending {
        assert all[i] == batch[i] && batch[i] in events;
      }
    }
  }

  lemma CollectedIsSound(crypto: Crypto, peer: Peer, events: seq<SignedEvent>)
    requires SoundPeer(crypto, peer) && NoClashWith(peer, events)
    requires FirstFault(crypto, events).None? && AcceptFault(peer, events).None?
    ensures var all := Collected(peer, events);
            && SoundPending(crypto, peer.community, peer.node.known, all)
            && |all| <= MAX_PENDING_SYNC_EVENTS
            && (forall i :: i in all && i in peer.node.store ==> peer.node.store[i] == all[i])
  {
    CollectedContent(crypto, peer, events);
    CollectedSize(peer.pending, NewOnes(peer, events));
  }

  /** The list of a sound collection is valid, of the community, and has its genesis if there is one. */
  lemma ListIsSound(crypto: Crypto, community: Id, known: set<Id>, all: Events)
    requires SoundPending(crypto, community, known, all)
    ensures FirstFault(crypto, ListOf(all)).None?
    ensures AllBelong(ListOf(all), community)
    ensures community in all && IsGenesis(all[community]) ==> FirstGenesis(ListOf(all)) == Some(community)
  {
    var list := ListOf(all);
    forall e | e in list
      ensures ValidEvent(crypto, e) && Belongs(e, community)
    {
      InListIsOwn(all, e);
    }
    if community in all && IsGenesis(all[community]) {
      OwnIsInList(all, community);
      var g :| g in list && IsGenesis(g) && g.id == FirstGenesis(list).value;
      assert Belongs(g, community);
    }
  }

  /** Within `accept`, ingestion is never refused. */
  lemma IngestIsNotRefused(crypto: Crypto, peer: Peer, all: Events)
    requires SoundPeer(crypto, peer) && SoundPending(crypto, peer.community, peer.node.known, all)
    requires |all| <= MAX_PENDING_SYNC_EVENTS && CanIngest(peer, all)
    ensures IngestFault(crypto, peer.node.community, ListOf(all)).None?
    ensures CommunityFor(peer.node.community, ListOf(all)) == Some(peer.community)
  {
    ListIsSound(crypto, peer.community, peer.node.known, all);
    NotRefused(crypto, peer.node.community, peer.community, ListOf(all));
  }

  lemma NotRefused(crypto: Crypto, own: Option<Id>, community: Id, list: seq<SignedEvent>)
    requires |list| <= MAX_PENDING_EVENTS && FirstFault(crypto, list).None? && AllBelong(list, community)
    requires own == Some(community) || (own.None? && FirstGenesis(list) == Some(community))
    ensures IngestFault(crypto, own, list).None? && CommunityFor(own, list) == Some(community)
  {
  }

  lemma ListHasNoClash(store: Events, all: Events)
    requires Indexed(all)
    requires forall i :: i in all && i in store ==> store[i] == all[i]
    ensures NoClash(store, ListOf(all))
  {
    forall e | e in ListOf(all)
      ensures e.id in all && all[e.id] == e
    {
      InListIsOwn(all, e);
    }
  }

  /** Whether or not the node is ready to ingest, it ends up knowing exactly the parent closure. */
  lemma NodeAfterIsClosure(crypto: Crypto, peer: Peer, all: Events)
    requires SoundPeer(crypto, peer) && SoundPending(crypto, peer.community, peer.node.known, all)
    requires |all| <= MAX_PENDING_SYNC_EVENTS
    requires forall i :: i in all && i in peer.node.store ==> peer.node.store[i] == all[i]
    ensures var node := NodeAfter(peer, all);
            && node.known == peer.node.known + Absorbed(peer.node.known, all)
            && node.store == Stored(peer.node.store, all, Absorbed(peer.node.known, all))
            && Sound(crypto, node)
            && (node.community.Some? ==> node.community.value == peer.community)
  {
    if CanIngest(peer, all) {
      IngestTakesClosure(crypto, peer, all);
    } else {
      NothingToAbsorb(crypto, peer, all);
      NothingTaken(peer.node.store, peer.node.known, all, Absorbed(peer.node.known, all));
    }
  }

  lemma NothingTaken(store: Events, known: set<Id>, all: Events, absorbed: set<Id>)
    requires absorbed == {}
    ensures known == known + absorbed && store == Stored(store, all, absorbed)
  {
  }

  lemma IngestedIs(node: NodeState, list: seq<SignedEvent>, all: Events, community: Id)
    requires CommunityFor(node.community, list) == Some(community) && BatchOf(list) == all
    ensures Ingested(node, list) == TakenIn(node, all, Absorbed(node.known, all), community)
  {
  }

  lemma IngestTakesClosure(crypto: Crypto, peer: Peer, all: Events)
    requires SoundPeer(crypto, peer) && SoundPending(crypto, peer.community, peer.node.known, all)
    requires |all| <= MAX_PENDING_SYNC_EVENTS && CanIngest(peer, all)
    requires forall i :: i in all && i in peer.node.store ==> peer.node.store[i] == all[i]
    ensures var node := Ingested(peer.node, ListOf(all));
            && node.known == peer.node.known + Absorbed(peer.node.known, all)
            && node.store == Stored(peer.node.store, all, Absorbed(peer.node.known, all))
            && Sound(crypto, node) && node.community == Some(peer.community)
  {
    var list := ListOf(all);
    IngestIsNotRefused(crypto, peer, all);
    ListHasNoClash(peer.node.store, all);
    BatchOfList(all);
    IngestKeepsSound(crypto, peer.node, list);
    CommunityIsLearned(crypto, peer.node, list);
    IngestedIs(peer.node, list, all, peer.community);
  }

  lemma NothingToAbsorb(crypto: Crypto, peer: Peer, all: Events)
    requires SoundPeer(crypto, peer) && SoundPending(crypto, peer.community, peer.node.known, all)
    requires !CanIngest(peer, all)
    ensures Absorbed(peer.node.known, all) == {}
  {
    if all == map[] {
      assert Ready(peer.node.known, all) == {};
    } else {
      NothingWithoutGenesis(crypto, all);
    }
  }

  /** What stays pending waits for a parent that is not known. */
  lemma RestIsNotReady(known: set<Id>, all: Events)
    ensures var known' := known + Absorbed(known, all);
            Ready(known', all - known') == {}
  {
    AbsorbedIsClosed(known, all);
  }

  /** Accepting a delivery keeps the peer sound, and leaves it with the parent closure of all it has seen. */
  lemma AcceptKeepsSound(crypto: Crypto, peer: Peer, events: seq<SignedEvent>)
    requires SoundPeer(crypto, peer) && NoClashWith(peer, events)
    requires FirstFault(crypto, events).None? && AcceptFault(peer, events).None?
    ensures SoundPeer(crypto, Accepted(peer, events))
    ensures var all := Collected(peer, events);
            var after := Accepted(peer, events);
            && after.node.known == peer.node.known + Absorbed(peer.node.known, all)
            && after.pending == all - after.node.known
            && after.node.store == Stored(peer.node.store, all, Absorbed(peer.node.known, all))
  {
    var all := Collected(peer, events);
    CollectedIsSound(crypto, peer, events);
    NodeAfterIsClosure(crypto, peer, all);
    RestIsNotReady(peer.node.known, all);
    FewerPending(all, NodeAfter(peer, all).known);
    PendingKept(crypto, peer, all, Accepted(peer, events));
  }

  lemma FewerPending(all: Events, known: set<Id>)
    ensures |all - known| <= |all|
  {
    assert (all - known).Keys <= all.Keys;
    SubsetIsNoLarger((all - known).Keys, all.Keys);
  }

  lemma PendingKept(crypto: Crypto, peer: Peer, all: Events, after: Peer)
    requires SoundPending(crypto, peer.community, peer.node.known, all)
    requires forall i :: i in all && i in peer.node.store ==> peer.node.store[i] == all[i]
    requires after.pending == all - after.node.known
    requires after.node.store == Stored(peer.node.store, all, Absorbed(peer.node.known, all))
    ensures SoundPending(crypto, peer.community, after.node.known, after.pending)
    ensures forall i :: i in after.pending && i in after.node.store ==> after.node.store[i] == after.pending[i]
  {
  }
}
