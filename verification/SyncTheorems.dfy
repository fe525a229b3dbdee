/** What one peer keeps and promises over whole runs of received messages. */
module SyncTheorems {
  import opened Wrappers
  import opened Bytes
  import opened Protocol
  import opened Ordering
  import opened Closure
  import opened Node
  import opened NodeTheorems
  import opened SyncMessages
  import opened ByteCount
  import opened SyncState
  import Packing
  import opened Samples

  // ------------------------------------------------------------------ the protocol is closed

  lemma WantsAreValid(crypto: Crypto, community: Id, ids: seq<Id>)
    requires StrictlySorted(ids)
    ensures forall m :: m in WantMessages(community, ids) ==>
              ValidMessage(crypto, m) && m.ids != [] && Elements(m.ids) <= Elements(ids)
  {
    var chunks := Chunks(ids, MAX_IDS_PER_MESSAGE);
    forall m | m in WantMessages(community, ids)
      ensures ValidMessage(crypto, m) && m.ids != [] && Elements(m.ids) <= Elements(ids)
    {
      var i :| 0 <= i < |chunks| && m == Want(community, chunks[i]);
      PiecesAreSorted(chunks, i);
      IdMessagesAreValid(crypto, community, chunks[i]);
      forall x | x in chunks[i]
        ensures x in ids
      {
        InFlatten(chunks, i, x);
      }
    }
  }

  /** Every requested id is asked for. */
  lemma WantsCover(community: Id, ids: seq<Id>, x: Id) returns (m: SyncMessage)
    requires x in ids
    ensures m in WantMessages(community, ids) && m.Want? && x in m.ids
  {
    var chunks := Chunks(ids, MAX_IDS_PER_MESSAGE);
    var i := FlattenIn(chunks, x);
    m := WantMessages(community, ids)[i];
  }

  lemma HeadsAreValid(crypto: Crypto, community: Id, ids: seq<Id>)
    requires StrictlySorted(ids)
    ensures forall m :: m in HeadMessages(community, ids) ==>
              ValidMessage(crypto, m) && Elements(m.ids) <= Elements(ids)
  {
    var chunks := Chunks(ids, MAX_IDS_PER_MESSAGE);
    forall m | m in HeadMessages(community, ids)
      ensures ValidMessage(crypto, m) && Elements(m.ids) <= Elements(ids)
    {
      if ids == [] {
        assert m == Heads(community, []);
        IdMessagesAreValid(crypto, community, []);
      } else {
        var i :| 0 <= i < |chunks| && m == Heads(community, chunks[i]);
        PiecesAreSorted(chunks, i);
        IdMessagesAreValid(crypto, community, chunks[i]);
        forall x | x in chunks[i]
          ensures x in ids
        {
          InFlatten(chunks, i, x);
        }
      }
    }
  }

  lemma HeadsCover(community: Id, ids: seq<Id>, x: Id) returns (m: SyncMessage)
    requires x in ids
    ensures m in HeadMessages(community, ids) && m.Heads? && x in m.ids
  {
    var chunks := Chunks(ids, MAX_IDS_PER_MESSAGE);
    var i := FlattenIn(chunks, x);
    m := HeadMessages(community, ids)[i];
  }

  lemma PackedAreValid(crypto: Crypto, community: Id, events: seq<SignedEvent>, messages: seq<SyncMessage>)
    requires PackedAs(crypto, community, events, messages)
    ensures forall m :: m in messages ==> ValidMessage(crypto, m) && m.Deliver? && m.community == community
    ensures forall m, e :: m in messages && m.Deliver? && e in m.events ==> e in events
  {
    var batches :| Packing.PackedAs(Fits(crypto, community), Full(community), events, batches)
                   && messages == Deliveries(community, batches);
    forall m | m in messages
      ensures ValidMessage(crypto, m) && m.Deliver? && m.community == community
      ensures forall e :: e in m.events ==> e in events
    {
      var i :| 0 <= i < |batches| && m == Deliver(community, batches[i]);
      assert Fits(crypto, community)(batches[i]);
      forall e | e in m.events
        ensures e in events
      {
        InFlatten(batches, i, e);
      }
    }
  }

  lemma PackedCover(
    crypto: Crypto, community: Id, events: seq<SignedEvent>, messages: seq<SyncMessage>, e: SignedEvent)
    returns (m: SyncMessage)
    requires PackedAs(crypto, community, events, messages) && e in events
    ensures m in messages && m.Deliver? && e in m.events
  {
    var batches :| Packing.PackedAs(Fits(crypto, community), Full(community), events, batches)
                   && messages == Deliveries(community, batches);
    var i := FlattenIn(batches, e);
    m := messages[i];
  }

  /** Stored events asked for in id order come in id order and are valid, so serving them never fails. */
  lemma {:induction false} StoredEventsAreServable(crypto: Crypto, store: Events, ids: seq<Id>)
    requires SoundStore(crypto, store) && StrictlySorted(ids)
    ensures SortedEvents(StoredEvents(store, ids))
    ensures FirstFault(crypto, StoredEvents(store, ids)).None?
    ensures forall e :: e in StoredEvents(store, ids) ==> e.id in ids && e.id in store && store[e.id] == e
  {
    if ids != [] {
      StoredEventsAreServable(crypto, store, ids[1..]);
      if ids[0] in store {
        assert forall x :: x in ids[1..] ==> ids[0] < x;
        ServableStep(crypto, store[ids[0]], StoredEvents(store, ids[1..]));
      } else {
        assert StoredEvents(store, ids) == StoredEvents(store, ids[1..]);
      }
    }
  }

  lemma ServableStep(crypto: Crypto, event: SignedEvent, rest: seq<SignedEvent>)
    requires ValidEvent(crypto, event) && SortedEvents(rest) && FirstFault(crypto, rest).None?
    requires forall e :: e in rest ==> event.id < e.id
    ensures SortedEvents([event] + rest) && FirstFault(crypto, [event] + rest).None?
  {
    var all := [event] + rest;
    forall i, j | 0 <= i < j < |all|
      ensures all[i].id < all[j].id
    {
      assert all[j] == rest[j - 1] && rest[j - 1] in rest;
      if i > 0 {
        assert all[i] == rest[i - 1];
      }
    }
    assert all[1..] == rest;
  }

  /** Everything a sound peer answers passes validation and is for its community. */
  lemma AnswersAreValid(crypto: Crypto, peer: Peer, message: SyncMessage, peer': Peer, out: seq<SyncMessage>)
    requires SoundPeer(crypto, peer) && peer.node.known <= peer.node.store.Keys
    requires Responds(crypto, peer, message, peer', out)
    requires ReceiveFault(crypto, peer, message).None?
    ensures forall m :: m in out ==> ValidMessage(crypto, m) && m.community == peer.community
  {
    match message {
      case Hello(_, _, _) =>
        HeadsAreValid(crypto, peer.community, Ascending(HeadSet(peer.node.store, peer.node.known)));
      case Heads(_, ids) =>
        ValidIds(crypto, message);
        WantsAreValid(crypto, peer.community, Unseen(peer, ids));
      case Want(_, ids) =>
        if StoredEvents(peer.node.store, ids) != [] {
          PackedAreValid(crypto, peer.community, StoredEvents(peer.node.store, ids), out);
        }
      case Deliver(_, events) =>
        WantsAreValid(crypto, peer.community, Ascending(Missing(peer'.node.known, peer'.pending)));
    }
  }

  lemma ValidIds(crypto: Crypto, message: SyncMessage)
    requires MessageFault(crypto, message).None? && (message.Heads? || message.Want?)
    ensures StrictlySorted(message.ids)
  {
  }

  // ------------------------------------------------------------------ serving

  /** Every event in every answer to every Want is one the peer knows. */
  ghost predicate ServesKnownOnly(crypto: Crypto, peer: Peer)
    requires peer.node.known <= peer.node.store.Keys
  {
    forall ids: seq<Id>, peer': Peer, out: seq<SyncMessage>, m: SyncMessage, e: SignedEvent ::
      && ReceiveFault(crypto, peer, Want(peer.community, ids)).None?
      && Responds(crypto, peer, Want(peer.community, ids), peer', out)
      && m in out && m.Deliver? && e in m.events
      ==> e.id in peer.node.known
  }

  /** What a peer answers to a Want comes from its store. */
  lemma ServedIsStored(
    crypto: Crypto, peer: Peer, ids: seq<Id>, peer': Peer, out: seq<SyncMessage>, m: SyncMessage, e: SignedEvent)
    requires SoundPeer(crypto, peer) && peer.node.known <= peer.node.store.Keys
    requires Responds(crypto, peer, Want(peer.community, ids), peer', out)
    requires m in out && m.Deliver? && e in m.events
    ensures e.id in ids && e.id in peer.node.store && peer.node.store[e.id] == e
  {
    var events := StoredEvents(peer.node.store, ids);
    PackedAreValid(crypto, peer.community, events, out);
    assert e in events;
  }

  /** A stored row is delivered to whoever asks for it. */
  lemma StoredIsServed(crypto: Crypto, peer: Peer, i: Id)
    requires SoundPeer(crypto, peer) && peer.node.known <= peer.node.store.Keys && i in peer.node.store
    ensures ReceiveFault(crypto, peer, Want(peer.community, [i])).None?
    ensures Responds(crypto, peer, Want(peer.community, [i]), peer, [Deliver(peer.community, [peer.node.store[i]])])
    ensures peer.node.store[i].id == i
  {
    var e := peer.node.store[i];
    IdMessagesAreValid(crypto, peer.community, [i]);
    assert [i][1..] == [];
    assert StoredEvents(peer.node.store, [i]) == [e] + StoredEvents(peer.node.store, []);
    AloneIsPacked(crypto, peer.community, e);
  }

  lemma AloneIsPacked(crypto: Crypto, community: Id, e: SignedEvent)
    requires ValidEvent(crypto, e)
    ensures PackedAs(crypto, community, [e], [Deliver(community, [e])])
  {
    SingleEventIsValid(crypto, community, e);
    var batches := [[e]];
    assert Flatten(batches) == [e] + Flatten(batches[1..]);
    assert Packing.PackedAs(Fits(crypto, community), Full(community), [e], batches);
    assert Deliveries(community, batches) == [Deliver(community, [e])];
  }

  /**
   A Want is answered from the whole store, not from the known ids of the community. A sound peer
   delivers only known events exactly when every stored row is known.
   */
  lemma ServesOnlyKnown(crypto: Crypto, peer: Peer)
    requires SoundPeer(crypto, peer) && peer.node.known <= peer.node.store.Keys
    ensures ServesKnownOnly(crypto, peer) <==> peer.node.store.Keys <= peer.node.known
  {
    if ServesKnownOnly(crypto, peer) {
      forall i | i in peer.node.store
        ensures i in peer.node.known
      {
        StoredIsServed(crypto, peer, i);
        var m := Deliver(peer.community, [peer.node.store[i]]);
        assert m in [m] && peer.node.store[i] in m.events;
      }
    }
    if peer.node.store.Keys <= peer.node.known {
      forall ids: seq<Id>, peer': Peer, out: seq<SyncMessage>, m: SyncMessage, e: SignedEvent |
        && ReceiveFault(crypto, peer, Want(peer.community, ids)).None?
        && Responds(crypto, peer, Want(peer.community, ids), peer', out)
        && m in out && m.Deliver? && e in m.events
        ensures e.id in peer.node.known
      {
        ServedIsStored(crypto, peer, ids, peer', out, m, e);
      }
    }
  }

  /** For a node opened on a store, that is when every row of the store is of its community. */
  lemma OpenedServesOnlyKnown(crypto: Crypto, peer: Peer)
    requires SoundPeer(crypto, peer) && peer.node.community == Some(peer.community)
    requires peer.node.known == set i | i in peer.node.store && Belongs(peer.node.store[i], peer.community)
    ensures ServesKnownOnly(crypto, peer)
            <==> forall i :: i in peer.node.store ==> Belongs(peer.node.store[i], peer.community)
  {
    ServesOnlyKnown(crypto, peer);
  }

  /**
   Such a peer exists: it was opened for one community on a store that also holds the valid genesis of
   another, and delivers that genesis to whoever asks for it.
   */
  lemma SomeUnknownRowIsServed()
    returns (crypto: Crypto, peer: Peer, row: SignedEvent, out: seq<SyncMessage>)
    ensures SoundPeer(crypto, peer) && peer.node.community == Some(peer.community)
    ensures peer.node.known == set i | i in peer.node.store && Belongs(peer.node.store[i], peer.community)
    ensures row.id in peer.node.store && peer.node.store[row.id] == row && peer.node.known <= peer.node.store.Keys
    ensures ValidEvent(crypto, row) && !Belongs(row, peer.community) && row.id !in peer.node.known
    ensures ReceiveFault(crypto, peer, Want(peer.community, [row.id])).None?
    ensures Responds(crypto, peer, Want(peer.community, [row.id]), peer, out)
    ensures out == [Deliver(peer.community, [row])]
    ensures !ServesKnownOnly(crypto, peer)
  {
    crypto := SampleCrypto();
    var kind: Octets := [1];
    var genesis := SampleEvent(0, None, [], kind, 0);
    row := SampleEvent(0, None, [], kind, 1);
    SampleIsValid(0, None, [], kind, 0);
    SampleIsValid(0, None, [], kind, 1);
    peer := TwoRows(crypto, genesis, row);
    StoredIsServed(crypto, peer, row.id);
    out := [Deliver(peer.community, [row])];
    ServesOnlyKnown(crypto, peer);
  }

  /** A peer of the first genesis' community whose store also holds the second. */
  lemma TwoRows(crypto: Crypto, genesis: SignedEvent, row: SignedEvent) returns (peer: Peer)
    requires ValidEvent(crypto, genesis) && ValidEvent(crypto, row) && IsGenesis(genesis) && IsGenesis(row)
    requires genesis.id != row.id
    ensures peer == Peer(NodeState(map[genesis.id := genesis, row.id := row], Some(genesis.id), {genesis.id}),
                         genesis.id, map[], None)
    ensures SoundPeer(crypto, peer)
    ensures peer.node.known == set i | i in peer.node.store && Belongs(peer.node.store[i], peer.community)
  {
    var store := map[genesis.id := genesis, row.id := row];
    peer := Peer(NodeState(store, Some(genesis.id), {genesis.id}), genesis.id, map[], None);
    GenesisIsGrounded(crypto, genesis, store);
    RowsOf(genesis, row, store);
    assert Ready(peer.node.known, map[]) == {};
  }

  lemma GenesisIsGrounded(crypto: Crypto, genesis: SignedEvent, store: Events)
    requires ValidEvent(crypto, genesis) && IsGenesis(genesis) && genesis.id in store && store[genesis.id] == genesis
    ensures Grounded(store, {genesis.id})
  {
    assert genesis.content.parents == [];
    assert Ranked(store, {genesis.id}, map[genesis.id := 0], 1);
  }

  lemma RowsOf(genesis: SignedEvent, row: SignedEvent, store: Events)
    requires IsGenesis(genesis) && IsGenesis(row) && genesis.id != row.id
    requires store == map[genesis.id := genesis, row.id := row]
    ensures {genesis.id} == set i | i in store && Belongs(store[i], genesis.id)
  {
  }

  // ------------------------------------------------------------------ quota

  /** The quota, if any, covers what is stored and what is pending. */
  ghost predicate WithinQuota(peer: Peer) {
    peer.quota.Some? ==> Total(peer.node.store) + Total(peer.pending) <= peer.quota.value
  }

  /** Taking pending events in moves their bytes to the store; rows that were there are not written again. */
  lemma IngestionMovesBytes(store: Events, all: Events, absorbed: set<Id>)
    requires absorbed <= all.Keys
    ensures Total(Stored(store, all, absorbed)) + Total(all - absorbed) + Total(Only(all, absorbed * store.Keys))
            == Total(store) + Total(all)
  {
    var fresh_ := absorbed - store.Keys;
    PartsOfAbsorbed(store, all, absorbed);
    TotalAdds(store, Only(all, fresh_));
    TotalSplits(all, absorbed);
    TotalSplits(Only(all, absorbed), fresh_);
  }

  lemma PartsOfAbsorbed(store: Events, all: Events, absorbed: set<Id>)
    requires absorbed <= all.Keys
    ensures var fresh_ := absorbed - store.Keys;
            && store.Keys !! Only(all, fresh_).Keys
            && Stored(store, all, absorbed) == store + Only(all, fresh_)
            && Only(Only(all, absorbed), fresh_) == Only(all, fresh_)
            && Only(all, absorbed) - fresh_ == Only(all, absorbed * store.Keys)
  {
  }

  lemma RestIsUnabsorbed(known: set<Id>, all: Events, absorbed: set<Id>)
    requires known !! all.Keys
    ensures all - (known + absorbed) == all - absorbed
  {
  }

  /** A delivery within the quota leaves the peer within the quota. */
  lemma AcceptKeepsQuota(crypto: Crypto, peer: Peer, events: seq<SignedEvent>)
    requires SoundPeer(crypto, peer) && NoClashWith(peer, events)
    requires FirstFault(crypto, events).None? && AcceptFault(peer, events).None?
    ensures WithinQuota(Accepted(peer, events))
  {
    AcceptKeepsSound(crypto, peer, events);
    NewIsApart(crypto, peer, events);
    BytesAfterAccept(peer.node.store, peer.node.known, peer.pending, NewOnes(peer, events));
    QuotaAfterAccept(peer, events, Accepted(peer, events));
  }

  lemma NewIsApart(crypto: Crypto, peer: Peer, events: seq<SignedEvent>)
    requires SoundPeer(crypto, peer)
    ensures peer.pending.Keys !! NewOnes(peer, events).Keys
    ensures peer.node.known !! (peer.pending + NewOnes(peer, events)).Keys
  {
  }

  lemma QuotaAfterAccept(peer: Peer, events: seq<SignedEvent>, after: Peer)
    requires AcceptFault(peer, events).None? && after.quota == peer.quota
    requires Total(after.node.store) + Total(after.pending)
             <= Total(peer.node.store) + Total(peer.pending) + Total(NewOnes(peer, events))
    ensures WithinQuota(after)
  {
    assert !OverQuota(peer, events);
  }

  lemma BytesAfterAccept(store: Events, known: set<Id>, pending: Events, new_: Events)
    requires pending.Keys !! new_.Keys && known !! (pending + new_).Keys
    ensures var all := pending + new_;
            var absorbed := Absorbed(known, all);
            Total(Stored(store, all, absorbed)) + Total(all - (known + absorbed))
            <= Total(store) + Total(pending) + Total(new_)
  {
    var all := pending + new_;
    var absorbed := Absorbed(known, all);
    RestIsUnabsorbed(known, all, absorbed);
    IngestionMovesBytes(store, all, absorbed);
    TotalAdds(pending, new_);
  }

  /** The peer after a message: unchanged by refusals and requests, or having accepted a delivery. */
  ghost function PeerAfter(crypto: Crypto, peer: Peer, message: SyncMessage): Peer {
    if ReceiveFault(crypto, peer, message).None? && message.Deliver? then Accepted(peer, message.events) else peer
  }

  lemma RespondsIsPeerAfter(crypto: Crypto, peer: Peer, message: SyncMessage, peer': Peer, out: seq<SyncMessage>)
    requires peer.node.known <= peer.node.store.Keys && ReceiveFault(crypto, peer, message).None?
    requires Responds(crypto, peer, message, peer', out)
    ensures peer' == PeerAfter(crypto, peer, message)
  {
  }

  /** Every message keeps a peer sound and within its quota. */
  lemma MessageKeepsSound(crypto: Crypto, peer: Peer, message: SyncMessage)
    requires SoundPeer(crypto, peer) && WithinQuota(peer)
    requires message.Deliver? ==> NoClashWith(peer, message.events)
    ensures SoundPeer(crypto, PeerAfter(crypto, peer, message)) && WithinQuota(PeerAfter(crypto, peer, message))
    ensures PeerAfter(crypto, peer, message).community == peer.community
    ensures PeerAfter(crypto, peer, message).quota == peer.quota
  {
    if ReceiveFault(crypto, peer, message).None? && message.Deliver? {
      ValidDelivery(crypto, message);
      AcceptKeepsSound(crypto, peer, message.events);
      AcceptKeepsQuota(crypto, peer, message.events);
    }
  }

  lemma ValidDelivery(crypto: Crypto, message: SyncMessage)
    requires message.Deliver? && MessageFault(crypto, message).None?
    ensures FirstFault(crypto, message.events).None?
  {
  }

  /** The peer after a run of received messages. */
  ghost function AfterRun(crypto: Crypto, peer: Peer, messages: seq<SyncMessage>): Peer
    decreases |messages|
  {
    if messages == [] then peer
    else PeerAfter(crypto, AfterRun(crypto, peer, messages[..|messages| - 1]), messages[|messages| - 1])
  }

  lemma AfterRunStep(crypto: Crypto, peer: Peer, messages: seq<SyncMessage>, k: nat)
    requires k < |messages|
    ensures AfterRun(crypto, peer, messages[..k + 1])
            == PeerAfter(crypto, AfterRun(crypto, peer, messages[..k]), messages[k])
  {
    assert messages[..k + 1][..k] == messages[..k];
  }

  /** No delivery of the run brings an id collision. */
  ghost predicate Unclashing(crypto: Crypto, peer: Peer, messages: seq<SyncMessage>)
    decreases |messages|
  {
    messages == [] ||
    var init, last := messages[..|messages| - 1], messages[|messages| - 1];
    && Unclashing(crypto, peer, init)
    && (last.Deliver? ==> NoClashWith(AfterRun(crypto, peer, init), last.events))
  }

  /**
   After any sequence of received messages, refused ones included, stored plus pending bytes are
   within the quota, at most 1024 events are pending, and the peer is sound.
   */
  lemma {:induction false} RunsStayWithinQuota(crypto: Crypto, peer: Peer, messages: seq<SyncMessage>)
    requires SoundPeer(crypto, peer) && WithinQuota(peer) && Unclashing(crypto, peer, messages)
    ensures SoundPeer(crypto, AfterRun(crypto, peer, messages))
    ensures WithinQuota(AfterRun(crypto, peer, messages))
    ensures AfterRun(crypto, peer, messages).quota == peer.quota
    decreases |messages|
  {
    if messages != [] {
      var init, last := messages[..|messages| - 1], messages[|messages| - 1];
      RunsStayWithinQuota(crypto, peer, init);
      MessageKeepsSound(crypto, AfterRun(crypto, peer, init), last);
    }
  }

  /** One message: refused without effect, or answered. */
  ghost predicate Takes(crypto: Crypto, peer: Peer, message: SyncMessage, peer': Peer, out: seq<SyncMessage>) {
    if ReceiveFault(crypto, peer, message).Some? then peer' == peer && out == []
    else peer.node.known <= peer.node.store.Keys && Responds(crypto, peer, message, peer', out)
  }

  /** `peers` are the states a peer goes through as it receives the messages and answers `outs`. */
  ghost predicate IsRun(crypto: Crypto, peers: seq<Peer>, messages: seq<SyncMessage>, outs: seq<seq<SyncMessage>>) {
    && |peers| == |messages| + 1 && |outs| == |messages|
    && forall k :: 0 <= k < |messages| ==> Takes(crypto, peers[k], messages[k], peers[k + 1], outs[k])
  }

  lemma TakingIsPeerAfter(crypto: Crypto, peer: Peer, message: SyncMessage, peer': Peer, out: seq<SyncMessage>)
    requires Takes(crypto, peer, message, peer', out)
    ensures peer' == PeerAfter(crypto, peer, message)
  {
    if ReceiveFault(crypto, peer, message).None? {
      RespondsIsPeerAfter(crypto, peer, message, peer', out);
    }
  }

  /** A run of answered messages goes through the states of `AfterRun`. */
  lemma {:induction false} RunIsAfterRun(
    crypto: Crypto, peers: seq<Peer>, messages: seq<SyncMessage>, outs: seq<seq<SyncMessage>>, k: nat)
    requires IsRun(crypto, peers, messages, outs) && k <= |messages|
    ensures peers[k] == AfterRun(crypto, peers[0], messages[..k])
    decreases k
  {
    if k > 0 {
      RunIsAfterRun(crypto, peers, messages, outs, k - 1);
      assert messages[..k][..k - 1] == messages[..k - 1];
      assert Takes(crypto, peers[k - 1], messages[k - 1], peers[k - 1 + 1], outs[k - 1]);
      TakingIsPeerAfter(crypto, peers[k - 1], messages[k - 1], peers[k], outs[k - 1]);
    }
  }

  lemma {:induction false} UnclashingPrefix(crypto: Crypto, peer: Peer, messages: seq<SyncMessage>, k: nat)
    requires Unclashing(crypto, peer, messages) && k <= |messages|
    ensures Unclashing(crypto, peer, messages[..k])
    decreases |messages|
  {
    if k < |messages| {
      var init := messages[..|messages| - 1];
      UnclashingPrefix(crypto, peer, init, k);
      assert init[..k] == messages[..k];
    } else {
      assert messages[..k] == messages;
    }
  }

  /**
   Over a whole run of received messages and answers, the peer is sound and within its quota at every
   point, and everything it answers is valid.
   */
  lemma EveryRunStaysWithinQuota(
    crypto: Crypto, peers: seq<Peer>, messages: seq<SyncMessage>, outs: seq<seq<SyncMessage>>, k: nat)
    requires IsRun(crypto, peers, messages, outs) && k <= |messages|
    requires SoundPeer(crypto, peers[0]) && WithinQuota(peers[0]) && Unclashing(crypto, peers[0], messages)
    ensures SoundPeer(crypto, peers[k]) && WithinQuota(peers[k]) && peers[k].quota == peers[0].quota
    ensures k < |messages| ==> forall m :: m in outs[k] ==> ValidMessage(crypto, m)
  {
    RunIsAfterRun(crypto, peers, messages, outs, k);
    UnclashingPrefix(crypto, peers[0], messages, k);
    RunsStayWithinQuota(crypto, peers[0], messages[..k]);
    if k < |messages| {
      TakenAnswersAreValid(crypto, peers[k], messages[k], peers[k + 1], outs[k]);
    }
  }

  lemma TakenAnswersAreValid(crypto: Crypto, peer: Peer, message: SyncMessage, peer': Peer, out: seq<SyncMessage>)
    requires SoundPeer(crypto, peer) && Takes(crypto, peer, message, peer', out)
    ensures forall m :: m in out ==> ValidMessage(crypto, m)
  {
    if ReceiveFault(crypto, peer, message).None? {
      AnswersAreValid(crypto, peer, message, peer', out);
    }
  }

  // ------------------------------------------------------------------ delivery order

  /** All deliveries are valid, unclashing and not refused. */
  ghost predicate ErrorFree(crypto: Crypto, peer: Peer, deliveries: seq<seq<SignedEvent>>)
    decreases |deliveries|
  {
    deliveries == [] ||
    var init, last := deliveries[..|deliveries| - 1], deliveries[|deliveries| - 1];
    && ErrorFree(crypto, peer, init)
    && FirstFault(crypto, last).None?
    && NoClashWith(AfterAll(peer, init), last)
    && AcceptFault(AfterAll(peer, init), last).None?
  }

  ghost function AfterAll(peer: Peer, deliveries: seq<seq<SignedEvent>>): Peer
    decreases |deliveries|
  {
    if deliveries == [] then peer
    else Accepted(AfterAll(peer, deliveries[..|deliveries| - 1]), deliveries[|deliveries| - 1])
  }

  /** What was pending at first, and everything received since that was not known at first. */
  ghost function Received(peer: Peer, deliveries: seq<seq<SignedEvent>>): Events
    decreases |deliveries|
  {
    if deliveries == [] then peer.pending
    else
      var before := Received(peer, deliveries[..|deliveries| - 1]);
      before + (BatchOf(deliveries[|deliveries| - 1]) - (peer.node.known + before.Keys))
  }

  /**
   After any error-free sequence of deliveries, the peer knows exactly the least parent-closed
   extension of what it knew by everything received, and holds exactly the rest.
   */
  lemma {:induction false} DeliveriesYieldClosure(crypto: Crypto, peer: Peer, deliveries: seq<seq<SignedEvent>>)
    requires SoundPeer(crypto, peer) && ErrorFree(crypto, peer, deliveries)
    ensures var after, received := AfterAll(peer, deliveries), Received(peer, deliveries);
            && SoundPeer(crypto, after)
            && after.node.known == peer.node.known + Absorbed(peer.node.known, received)
            && after.pending == received - after.node.known
    decreases |deliveries|
  {
    if deliveries == [] {
      NothingDelivered(peer.node.known, peer.pending);
    } else {
      var init, last := deliveries[..|deliveries| - 1], deliveries[|deliveries| - 1];
      var before := AfterAll(peer, init);
      DeliveriesYieldClosure(crypto, peer, init);
      AcceptKeepsSound(crypto, before, last);
      DeliveryStep(peer.node.known, Received(peer, init), BatchOf(last), before.node.known, before.pending);
    }
  }

  lemma NothingDelivered(known: set<Id>, pending: Events)
    requires Ready(known, pending) == {} && known !! pending.Keys
    ensures known == known + Absorbed(known, pending) && pending == pending - known
  {
  }

  /** One delivery, in terms of everything received. */
  lemma DeliveryStep(start: set<Id>, received: Events, batch: Events, known: set<Id>, pending: Events)
    requires known == start + Absorbed(start, received) && pending == received - known
    ensures var all := pending + (batch - (known + pending.Keys));
            var both := received + (batch - (start + received.Keys));
            var known' := known + Absorbed(known, all);
            && known' == start + Absorbed(start, both)
            && all - known' == both - known'
  {
    var all := pending + (batch - (known + pending.Keys));
    var both := received + (batch - (start + received.Keys));
    CollectedInTwoWays(start, received, batch, known, pending);
    AbsorbInTwoSteps(start, received, all, both);
    SameRest(all, both, known, known + Absorbed(known, all));
  }

  lemma CollectedInTwoWays(start: set<Id>, received: Events, batch: Events, known: set<Id>, pending: Events)
    requires start <= known <= start + received.Keys && pending == received - known
    ensures var all := pending + (batch - (known + pending.Keys));
            var both := received + (batch - (start + received.Keys));
            && (forall i :: i in received ==> i in both && both[i] == received[i])
            && (forall i :: i in all ==> i in both && both[i] == all[i])
            && (forall i :: i in both ==> i in all || i in known)
  {
    assert known + pending.Keys == start + received.Keys;
  }

  lemma SameRest(all: Events, both: Events, known: set<Id>, known': set<Id>)
    requires known <= known'
    requires forall i :: i in all ==> i in both && both[i] == all[i]
    requires forall i :: i in both ==> i in all || i in known
    ensures all - known' == both - known'
  {
  }

  /** Deliveries that bring the same events in any order and grouping leave the same knowledge. */
  lemma DeliveryOrderIsIrrelevant(
    crypto: Crypto, peer: Peer, one: seq<seq<SignedEvent>>, other: seq<seq<SignedEvent>>)
    requires SoundPeer(crypto, peer) && ErrorFree(crypto, peer, one) && ErrorFree(crypto, peer, other)
    requires Received(peer, one) == Received(peer, other)
    ensures AfterAll(peer, one).node.known == AfterAll(peer, other).node.known
    ensures AfterAll(peer, one).pending == AfterAll(peer, other).pending
  {
    DeliveriesYieldClosure(crypto, peer, one);
    DeliveriesYieldClosure(crypto, peer, other);
  }

  /** Over events without id collisions, what was received depends only on the set of delivered events. */
  lemma ReceivedIsASet(peer: Peer, one: seq<seq<SignedEvent>>, other: seq<seq<SignedEvent>>)
    requires Indexed(peer.pending) && peer.node.known !! peer.pending.Keys
    requires Elements(Flatten(one)) == Elements(Flatten(other))
    requires forall e, f :: e in Flatten(one) && f in Flatten(one) && e.id == f.id ==> e == f
    ensures Received(peer, one) == Received(peer, other)
  {
    ReceivedFrom(peer, one);
    ReceivedFrom(peer, other);
    forall e
      ensures e in Flatten(one) <==> e in Flatten(other)
    {
      assert e in Flatten(one) <==> e in Elements(Flatten(one));
      assert e in Flatten(other) <==> e in Elements(Flatten(other));
    }
    SameCollection(
      peer.node.known, peer.pending, Flatten(one), Flatten(other), Received(peer, one), Received(peer, other));
  }

  /** `r` is what was pending and what was delivered without being known at first. */
  ghost predicate CollectionOf(known: set<Id>, pending: Events, delivered: seq<SignedEvent>, r: Events) {
    && (forall i :: i in r ==> i !in known)
    && (forall i :: i in r && i in pending ==> r[i] == pending[i])
    && (forall i :: i in r && i !in pending ==> r[i] in delivered && r[i].id == i)
    && (forall i :: i in pending ==> i in r)
    && (forall e :: e in delivered && e.id !in known ==> e.id in r)
  }

  lemma SameCollection(
    known: set<Id>, pending: Events, one: seq<SignedEvent>, other: seq<SignedEvent>, a: Events, b: Events)
    requires CollectionOf(known, pending, one, a) && CollectionOf(known, pending, other, b)
    requires forall e :: e in one <==> e in other
    requires forall e, f :: e in one && f in one && e.id == f.id ==> e == f
    ensures a == b
  {
    forall i | i in a
      ensures i in b && a[i] == b[i]
    {
      if i !in pending {
        assert a[i] in other;
      }
    }
    forall i | i in b
      ensures i in a
    {
      if i !in pending {
        assert b[i] in one;
      }
    }
  }

  /** Received events are the pending ones, or delivered ones not known at first. */
  lemma {:induction false} ReceivedFrom(peer: Peer, deliveries: seq<seq<SignedEvent>>)
    requires Indexed(peer.pending) && peer.node.known !! peer.pending.Keys
    ensures CollectionOf(peer.node.known, peer.pending, Flatten(deliveries), Received(peer, deliveries))
    decreases |deliveries|
  {
    if deliveries != [] {
      var init, last := deliveries[..|deliveries| - 1], deliveries[|deliveries| - 1];
      ReceivedFrom(peer, init);
      assert deliveries == init + [last];
      Packing.FlattenAppend(init, last);
    }
  }
}
