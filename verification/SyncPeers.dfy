/** The synchronizing peer as the program has it: an object whose methods update the node and the pending map. */
module SyncPeers {
  import opened Wrappers
  import opened Protocol
  import opened Ordering
  import opened Closure
  import opened Node
  import opened NodeTheorems
  import opened SyncMessages
  import opened ByteCount
  import opened SyncState
  import opened SyncTheorems

  class SyncPeer {
    const node: CoreNode
    const community: Id
    var pending: Events
    var quota: Option<nat>

    function View(): Peer
      reads this, node
    {
      Peer(node.View(), community, pending, quota)
    }

    ghost predicate Valid(crypto: Crypto)
      reads this, node
    {
      SoundPeer(crypto, View())
    }

    constructor (node: CoreNode, community: Id)
      ensures this.node == node && View() == Peer(node.View(), community, map[], None)
    {
      this.node, this.community, pending, quota := node, community, map[], None;
    }

    /** `SyncPeer::new`: the node must not belong to another community. */
    static method New(crypto: Crypto, node: CoreNode, community: Id) returns (r: Result<SyncPeer, SyncError>)
      requires Sound(crypto, node.View())
      ensures r.Err? <==> node.community.Some? && node.community.value != community
      ensures r.Err? ==> r.error == SyncError.WrongCommunity
      ensures r.Ok? ==> fresh(r.value) && r.value.Valid(crypto) && r.value.node == node
                        && r.value.View() == Peer(node.View(), community, map[], None)
    {
      if node.community.Some? && node.community.value != community {
        return Err(SyncError.WrongCommunity);
      }
      var peer := new SyncPeer(node, community);
      return Ok(peer);
    }

    /** `with_storage_quota`: the quota must be positive and cover what is already stored. */
    method SetStorageQuota(maxBytes: nat) returns (r: Result<(), SyncError>)
      modifies this
      ensures pending == old(pending)
      ensures r.Ok? <==> maxBytes > 0 && Total(node.store) <= maxBytes
      ensures r.Ok? ==> quota == Some(maxBytes) && (pending == map[] ==> WithinQuota(View()))
      ensures r.Err? ==> quota == old(quota)
                         && r.error == if maxBytes == 0 then InvalidStorageQuota else StorageQuotaExceeded(maxBytes)
    {
      if maxBytes == 0 {
        return Err(InvalidStorageQuota);
      }
      if Total(node.store) > maxBytes {
        return Err(StorageQuotaExceeded(maxBytes));
      }
      quota := Some(maxBytes);
      return Ok(());
    }

    function HelloMessage(): SyncMessage {
      Hello(SYNC_VERSION, [PROTOCOL_VERSION], community)
    }

    /**
     `receive`: fails exactly when it should and then changes nothing; otherwise answers and updates
     the peer as specified, and keeps it sound.
     */
    method Receive(crypto: Crypto, message: SyncMessage) returns (r: Result<seq<SyncMessage>, SyncError>)
      requires Valid(crypto)
      requires message.Deliver? ==> NoClashWith(View(), message.events)
      modifies this, node
      ensures Valid(crypto) && old(node.known) <= old(node.store).Keys
      ensures r.Err? <==> ReceiveFault(crypto, old(View()), message).Some?
      ensures r.Err? ==> Some(r.error) == ReceiveFault(crypto, old(View()), message) && View() == old(View())
      ensures r.Ok? ==> Responds(crypto, old(View()), message, View(), r.value)
    {
      GroundedHoldsParents(node.store, node.known);
      var fault := MessageFault(crypto, message);
      if fault.Some? {
        return Err(fault.value);
      }
      if message.community != community {
        return Err(SyncError.WrongCommunity);
      }
      match message {
        case Hello(_, _, _) =>
          var heads := node.Heads();
          return Ok(HeadMessages(community, heads));
        case Heads(_, ids) =>
          return Ok(WantMessages(community, Unseen(View(), ids)));
        case Want(_, ids) =>
          ValidIds(crypto, message);
          r := Serve(crypto, ids);
        case Deliver(_, events) =>
          ValidDelivery(crypto, message);
          r := Accept(crypto, events);
      }
    }

    /** `serve`: stored events for the requested ids, packed. */
    method Serve(crypto: Crypto, ids: seq<Id>) returns (r: Result<seq<SyncMessage>, SyncError>)
      requires Valid(crypto) && StrictlySorted(ids)
      ensures r.Ok?
      ensures var events := StoredEvents(node.store, ids);
              if events == [] then r.value == [] else PackedAs(crypto, community, events, r.value)
    {
      var events := StoredEvents(node.store, ids);
      if events == [] {
        return Ok([]);
      }
      StoredEventsAreServable(crypto, node.store, ids);
      r := PackEvents(crypto, community, events);
    }

    /** `accept`: checks, collects, ingests what parent closure allows, and asks for what is missing. */
    method Accept(crypto: Crypto, events: seq<SignedEvent>) returns (r: Result<seq<SyncMessage>, SyncError>)
      requires Valid(crypto) && NoClashWith(View(), events) && FirstFault(crypto, events).None?
      modifies this, node
      ensures Valid(crypto)
      ensures r.Err? <==> AcceptFault(old(View()), events).Some?
      ensures r.Err? ==> Some(r.error) == AcceptFault(old(View()), events) && View() == old(View())
      ensures r.Ok? ==> View() == Accepted(old(View()), events)
                        && r.value == WantMessages(community, Ascending(Missing(node.known, pending)))
    {
      var fault := AcceptFault(View(), events);
      if fault.Some? {
        return Err(fault.value);
      }
      AcceptKeepsSound(crypto, View(), events);
      CollectedIsSound(crypto, View(), events);
      Absorb(crypto, Collected(View(), events));
      var missing := MissingParents();
      return Ok(WantMessages(community, Ascending(missing)));
    }

    /** Holds `all` as pending, and lets the node ingest it if it can. */
    method Absorb(crypto: Crypto, all: Events)
      requires Valid(crypto) && SoundPending(crypto, community, node.known, all)
      requires |all| <= MAX_PENDING_SYNC_EVENTS
      modifies this, node
      ensures node.View() == NodeAfter(old(View()), all)
      ensures pending == all - node.known && quota == old(quota)
    {
      pending := all;
      if CanIngest(View(), all) {
        IngestIsNotRefused(crypto, old(View()), all);
        var report := node.Ingest(crypto, ListOf(all));
        pending := all - node.known;
      } else {
        NothingLeaves(crypto, old(View()), all);
      }
    }

    /** The parents of pending events that are neither known nor pending, gathered event by event. */
    method MissingParents() returns (missing: set<Id>)
      ensures missing == Missing(node.known, pending)
    {
      missing := {};
      var todo := pending.Keys;
      while todo != {}
        invariant todo <= pending.Keys
        invariant missing == MissingFor(node.known, pending, pending.Keys - todo)
        decreases |todo|
      {
        var id := Least(todo);
        var parents := pending[id].content.parents;
        missing := missing + set p | p in parents && p !in node.known && p !in pending;
        MissingStep(node.known, pending, todo, id);
        todo := todo - {id};
      }
      assert pending.Keys - {} == pending.Keys;
    }
  }

  /** The missing parents of some of the pending events. */
  function MissingFor(known: set<Id>, pending: Events, ids: set<Id>): set<Id> {
    set i, p | i in pending && i in ids && p in pending[i].content.parents && p !in known && p !in pending :: p
  }

  lemma MissingStep(known: set<Id>, pending: Events, todo: set<Id>, id: Id)
    requires todo <= pending.Keys && id in todo
    ensures MissingFor(known, pending, pending.Keys - (todo - {id}))
            == MissingFor(known, pending, pending.Keys - todo)
               + set p | p in pending[id].content.parents && p !in known && p !in pending
  {
    var a := MissingFor(known, pending, pending.Keys - todo);
    var b := MissingFor(known, pending, pending.Keys - (todo - {id}));
    var c := set p | p in pending[id].content.parents && p !in known && p !in pending;
    forall p | p in b
      ensures p in a + c
    {
      var i :| i in pending && i in pending.Keys - (todo - {id}) && p in pending[i].content.parents;
      assert i == id || i in pending.Keys - todo;
    }
  }

  /** A peer that cannot ingest keeps everything pending. */
  lemma NothingLeaves(crypto: Crypto, peer: Peer, all: Events)
    requires SoundPending(crypto, peer.community, peer.node.known, all)
    ensures all - peer.node.known == all
  {
  }
}
