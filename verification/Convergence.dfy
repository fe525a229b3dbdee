/**
 Every arrival keeps the exchange good: what one kind of message does to the two peers and to what is
 in flight, kind by kind.
 */
module Convergence {
  import opened Wrappers
  import opened Protocol
  import opened Ordering
  import opened Closure
  import opened Node
  import opened SyncMessages
  import opened SyncState
  import opened SyncTheorems
  import opened TwoPeers

  // ------------------------------------------------------------------ what a peer holds of the world

  /** A known event's row is the world's event, and its parents are known. */
  lemma KnownIsWorldly(crypto: Crypto, u: Events, community: Id, peer: Peer)
    requires World(crypto, u, community) && Inhabits(crypto, u, community, peer)
    ensures peer.node.known <= peer.node.store.Keys
    ensures forall i :: i in peer.node.known ==> i in u && peer.node.store[i] == u[i]
    ensures forall c, p :: c in peer.node.known && c in u && p in Parents(u[c]) ==> p in peer.node.known
  {
    GroundedHoldsParents(peer.node.store, peer.node.known);
    forall c, p | c in peer.node.known && c in u && p in Parents(u[c])
      ensures p in peer.node.known
    {
      assert peer.node.store[c] == u[c];
      assert p in Parents(peer.node.store[c]);
    }
  }

  // ------------------------------------------------------------------ Hello

  /** Answering a Hello advertises enough: everything else the other lacks is below what is advertised. */
  lemma HelloIsAnswered(
    u: Events, store: Events, mine: set<Id>, theirs: set<Id>, pending: set<Id>, adv: set<Id>, del: set<Id>,
    req: set<Id>,
    adv': set<Id>)
    requires NothingForgotten(u, theirs, pending, true, adv, del, req)
    requires u.Keys <= mine + theirs && mine <= store.Keys
    requires forall i :: i in mine ==> i in u && store[i] == u[i]
    requires forall c, p :: c in theirs && c in u && p in Parents(u[c]) ==> p in theirs
    requires HeadSet(store, mine) <= adv'
    ensures NothingForgotten(u, theirs, pending, false, adv', del, req)
  {
    forall e | e in u && e !in theirs
      ensures e in adv' || UnknownChild(u, theirs, e)
    {
      if e !in HeadSet(store, mine) {
        var c :| c in mine && e in Parents(store[c]);
        assert c in u && e in Parents(u[c]);
        assert c !in theirs;
      }
    }
  }

  lemma HeadsAreAdvertised(community: Id, ids: seq<Id>)
    ensures Elements(ids) <= Advertised(HeadMessages(community, ids))
  {
    forall x | x in Elements(ids)
      ensures x in Advertised(HeadMessages(community, ids))
    {
      var m := HeadsCover(community, ids, x);
    }
  }

  lemma WantsAreRequested(community: Id, ids: seq<Id>)
    ensures Elements(ids) <= Requested(WantMessages(community, ids))
  {
    forall x | x in Elements(ids)
      ensures x in Requested(WantMessages(community, ids))
    {
      var m := WantsCover(community, ids, x);
    }
  }

  /** Everything a Want names that is stored is delivered. */
  lemma StoredAreDelivered(crypto: Crypto, community: Id, store: Events, ids: seq<Id>, out: seq<SyncMessage>)
    requires Elements(ids) <= store.Keys && forall i :: i in store ==> store[i].id == i
    requires var events := StoredEvents(store, ids);
             if events == [] then out == [] else PackedAs(crypto, community, events, out)
    ensures Elements(ids) <= Delivering(out)
  {
    var events := StoredEvents(store, ids);
    forall x | x in Elements(ids)
      ensures x in Delivering(out)
    {
      assert store[x] in events;
      var m := PackedCover(crypto, community, events, out, store[x]);
    }
  }

  /** What is delivered in answer to a Want is the world's. */
  lemma ServedInOrder(
    crypto: Crypto, u: Events, community: Id, store: Events, known: set<Id>, other: set<Id>, ids: seq<Id>,
    out: seq<SyncMessage>)
    requires Elements(ids) <= known && forall i :: i in known && i in store ==> i in u && store[i] == u[i]
    requires Indexed(u)
    requires var events := StoredEvents(store, ids);
             if events == [] then out == [] else PackedAs(crypto, community, events, out)
    ensures AllInOrder(crypto, u, community, other, known, out)
  {
    var events := StoredEvents(store, ids);
    if events != [] {
      PackedAreValid(crypto, community, events, out);
      forall e | e in events
        ensures e.id in u && u[e.id] == e
      {
        var i :| i in ids && i in store && store[i] == e;
        assert i in Elements(ids);
      }
      DeliveriesInOrder(crypto, u, community, events, other, known, out);
    }
  }

  lemma DeliveriesInOrder(
    crypto: Crypto, u: Events, community: Id, events: seq<SignedEvent>, receiver: set<Id>, sender: set<Id>,
    out: seq<SyncMessage>)
    requires FromWorld(u, events)
    requires forall m :: m in out ==> ValidMessage(crypto, m) && m.Deliver? && m.community == community
    requires forall m, e :: m in out && m.Deliver? && e in m.events ==> e in events
    ensures AllInOrder(crypto, u, community, receiver, sender, out)
  {
    forall m | m in out
      ensures InOrder(crypto, u, community, receiver, sender, m)
    {
      assert FromWorld(u, m.events);
    }
  }

  // ------------------------------------------------------------------ deliveries

  /** Accepting world events leaves the peer in the world, knowing no less. */
  lemma AcceptInhabits(crypto: Crypto, u: Events, community: Id, peer: Peer, events: seq<SignedEvent>)
    requires World(crypto, u, community) && Inhabits(crypto, u, community, peer)
    requires FromWorld(u, events) && FirstFault(crypto, events).None?
    ensures Inhabits(crypto, u, community, Accepted(peer, events))
    ensures peer.node.known <= Accepted(peer, events).node.known
    ensures Seen(Accepted(peer, events)) == Seen(peer) + IdsOf(events)
  {
    DeliveryFits(crypto, u, community, peer, events);
    DeliveryAgrees(u, peer, events);
    AcceptKeepsSound(crypto, peer, events);
    var all, after := Collected(peer, events), Accepted(peer, events);
    StaysInWorld(u, peer.node.store, peer.node.known, all, after.node.store, after.node.known, after.pending);
    SeenAfter(peer, events, Absorbed(peer.node.known, all), after);
  }

  lemma StaysInWorld(
    u: Events, store: Events, known: set<Id>, all: Events, store': Events, known': set<Id>, pending': Events)
    requires forall i :: i in store && i in u ==> store[i] == u[i]
    requires forall i :: i in all ==> i in u && all[i] == u[i]
    requires known <= u.Keys && |u.Keys - known| <= MAX_PENDING_SYNC_EVENTS
    requires known' == known + Absorbed(known, all) && pending' == all - known'
    requires store' == Stored(store, all, Absorbed(known, all))
    ensures known' <= u.Keys && |u.Keys - known'| <= MAX_PENDING_SYNC_EVENTS
    ensures forall i :: i in store' && i in u ==> store'[i] == u[i]
    ensures forall i :: i in pending' ==> i in u && pending'[i] == u[i]
  {
    SubsetIsNoLarger(u.Keys - known', u.Keys - known);
  }

  lemma SeenAfter(peer: Peer, events: seq<SignedEvent>, absorbed: set<Id>, after: Peer)
    requires absorbed <= Collected(peer, events).Keys
    requires after.node.known == peer.node.known + absorbed
    requires after.pending == Collected(peer, events) - after.node.known
    ensures Seen(after) == Seen(peer) + IdsOf(events)
  {
    var batch := BatchOf(events);
    assert batch.Keys == IdsOf(events);
    assert Collected(peer, events).Keys == peer.pending.Keys + (IdsOf(events) - Seen(peer));
  }

  // ------------------------------------------------------------------ the receiver's side

  /** The receiver stays in the world, forgets nothing and sees what it was delivered. */
  lemma ReceiverInhabits(crypto: Crypto, u: Events, community: Id, me: Peer, m: SyncMessage, me': Peer)
    requires World(crypto, u, community) && Inhabits(crypto, u, community, me)
    requires m.Deliver? ==> FromWorld(u, m.events) && FirstFault(crypto, m.events).None?
    requires me' == if m.Deliver? then Accepted(me, m.events) else me
    ensures Inhabits(crypto, u, community, me') && me.node.known <= me'.node.known
    ensures Seen(me') == Seen(me) + if m.Deliver? then IdsOf(m.events) else {}
  {
    if m.Deliver? {
      AcceptInhabits(crypto, u, community, me, m.events);
    } else {
      NothingMore(Seen(me));
    }
  }

  lemma NothingMore(seen: set<Id>)
    ensures seen == seen + {}
  {
  }

  /** Only a delivery changes the receiver. */
  lemma RespondsBy(crypto: Crypto, me: Peer, m: SyncMessage, me': Peer, out: seq<SyncMessage>)
    requires me.node.known <= me.node.store.Keys && Responds(crypto, me, m, me', out)
    ensures me' == if m.Deliver? then Accepted(me, m.events) else me
  {
  }

  /** Its answers are in order. */
  lemma AnswersInOrder(
    crypto: Crypto, u: Events, community: Id, me: Peer, other: set<Id>, m: SyncMessage, me': Peer,
    out: seq<SyncMessage>)
    requires World(crypto, u, community)
    requires Inhabits(crypto, u, community, me) && Inhabits(crypto, u, community, me')
    requires me.node.known <= me'.node.known && u.Keys <= me.node.known + other
    requires InOrder(crypto, u, community, me.node.known, other, m)
    requires me.node.known <= me.node.store.Keys && Responds(crypto, me, m, me', out)
    ensures AllInOrder(crypto, u, community, other, me'.node.known, out)
  {
    match m {
      case Hello(_, _, _) =>
        HeadsInOrder(crypto, u, community, Ascending(HeadSet(me.node.store, me.node.known)), other, me.node.known);
      case Heads(_, ids) =>
        ValidIds(crypto, m);
        WantsInOrder(crypto, u, community, Unseen(me, ids), other, me.node.known);
      case Want(_, ids) =>
        ServedInOrder(crypto, u, community, me.node.store, me.node.known, other, ids, out);
      case Deliver(_, _) =>
        MissingIsWorldly(u, me'.node.known, me'.pending);
        WantsInOrder(crypto, u, community, Ascending(Missing(me'.node.known, me'.pending)), other, me'.node.known);
    }
  }

  /** Every parent a pending event waits for is pending or asked for. */
  lemma MissingIsRequested(u: Events, community: Id, known: set<Id>, pending: Events, out: seq<SyncMessage>)
    requires forall i :: i in pending ==> i in u && pending[i] == u[i]
    requires out == WantMessages(community, Ascending(Missing(known, pending)))
    ensures forall i, p :: i in pending && i in u && p in Parents(u[i]) ==>
              p in known || p in pending || p in Requested(out)
  {
    WantsAreRequested(community, Ascending(Missing(known, pending)));
    forall i, p | i in pending && i in u && p in Parents(u[i]) && p !in known && p !in pending
      ensures p in Requested(out)
    {
      assert p in pending[i].content.parents;
      assert p in Missing(known, pending);
    }
  }

  /** What the message carried off is replaced by what the receiver now holds or asks for. */
  lemma ReceiverKeepsTrack(
    crypto: Crypto, u: Events, me: Peer, m: SyncMessage, me': Peer, out: seq<SyncMessage>)
    requires me.node.known <= me.node.store.Keys && Responds(crypto, me, m, me', out)
    requires forall i :: i in me'.pending ==> i in u && me'.pending[i] == u[i]
    ensures m.Heads? ==> Elements(m.ids) <= Seen(me) + Requested(out)
    ensures m.Deliver? ==> forall i, p :: i in me'.pending && i in u && p in Parents(u[i]) ==>
              p in me'.node.known || p in me'.pending || p in Requested(out)
  {
    if m.Heads? {
      WantsAreRequested(me.community, Unseen(me, m.ids));
    }
    if m.Deliver? {
      MissingIsRequested(u, me.community, me'.node.known, me'.pending, out);
    }
  }

  lemma ReceiverIsServed(
    u: Events, known: set<Id>, pending: set<Id>, ins: seq<SyncMessage>, outs: seq<SyncMessage>, i: nat,
    known': set<Id>, pending': set<Id>, out: seq<SyncMessage>)
    requires i < |ins| && known <= known'
    requires NothingForgotten(u, known, pending, HelloAmong(outs), Advertised(ins), Delivering(ins), Requested(outs))
    requires forall c, p :: c in known' && c in u && p in Parents(u[c]) ==> p in known'
    requires known + pending + (if ins[i].Deliver? then IdsOf(ins[i].events) else {}) <= known' + pending'
    requires ins[i].Heads? ==> Elements(ins[i].ids) <= known' + pending' + Requested(out)
    requires if ins[i].Deliver? then forall j, p :: j in pending' && j in u && p in Parents(u[j]) ==>
               p in known' || p in pending' || p in Requested(out)
             else known' == known && pending' == pending
    ensures NothingForgotten(u, known', pending', HelloAmong(outs + out),
                             Advertised(Without(ins, i)), Delivering(Without(ins, i)), Requested(outs + out))
  {
    var ins', outs' := Without(ins, i), outs + out;
    UnderWayLoses(ins, i);
    UnderWayGrows(outs, outs');
    UnderWayGrows(out, outs');
    TrackingCarriesOver(
      u, known, pending, HelloAmong(outs), Advertised(ins), Delivering(ins), Requested(outs),
      known', pending', HelloAmong(outs'), Advertised(ins'), Delivering(ins'), Requested(outs'));
  }

  // ------------------------------------------------------------------ the sender's side

  /** What the message carried off is replaced by what is now on its way to the sender. */
  lemma SenderIsAnswered(
    crypto: Crypto, u: Events, community: Id, me: Peer, m: SyncMessage, me': Peer, out: seq<SyncMessage>)
    requires World(crypto, u, community) && Inhabits(crypto, u, community, me)
    requires me.node.known <= me.node.store.Keys && Responds(crypto, me, m, me', out)
    requires m.Want? ==> Elements(m.ids) <= me.node.known
    ensures m.Hello? ==> HeadSet(me.node.store, me.node.known) <= Advertised(out)
    ensures m.Want? ==> Elements(m.ids) <= Delivering(out)
  {
    if m.Hello? {
      HeadsAreAdvertised(me.community, Ascending(HeadSet(me.node.store, me.node.known)));
    }
    if m.Want? {
      StoredAreDelivered(crypto, me.community, me.node.store, m.ids, out);
    }
  }

  lemma SenderIsServed(
    u: Events, store: Events, mine: set<Id>, theirs: set<Id>, pending: set<Id>,
    ins: seq<SyncMessage>, outs: seq<SyncMessage>, i: nat, out: seq<SyncMessage>)
    requires i < |ins| && u.Keys <= mine + theirs && mine <= store.Keys
    requires forall j :: j in mine ==> j in u && store[j] == u[j]
    requires forall c, p :: c in theirs && c in u && p in Parents(u[c]) ==> p in theirs
    requires NothingForgotten(u, theirs, pending, HelloAmong(ins), Advertised(outs), Delivering(outs), Requested(ins))
    requires ins[i].Hello? ==> HeadSet(store, mine) <= Advertised(out)
    requires ins[i].Want? ==> Elements(ins[i].ids) <= Delivering(out)
    ensures NothingForgotten(u, theirs, pending, HelloAmong(Without(ins, i)),
                             Advertised(outs + out), Delivering(outs + out), Requested(Without(ins, i)))
  {
    var ins', outs' := Without(ins, i), outs + out;
    UnderWayLoses(ins, i);
    UnderWayGrows(outs, outs');
    UnderWayGrows(out, outs');
    ghost var hello, adv := HelloAmong(ins), Advertised(outs);
    if ins[i].Hello? {
      assert ins[i] in ins;
      HelloIsAnswered(u, store, mine, theirs, pending, adv, Delivering(outs), Requested(ins), Advertised(outs'));
      hello, adv := false, Advertised(outs');
    }
    TrackingCarriesOver(
      u, theirs, pending, hello, adv, Delivering(outs), Requested(ins),
      theirs, pending, HelloAmong(ins'), Advertised(outs'), Delivering(outs'), Requested(ins'));
  }

  // ------------------------------------------------------------------ every arrival

  /** What one arrival does, in the terms in which the invariant speaks. */
  ghost predicate Handled(crypto: Crypto, u: Events, me: Peer, m: SyncMessage, me': Peer, out: seq<SyncMessage>)
    requires me.node.known <= me.node.store.Keys
  {
    && (m.Heads? ==> Elements(m.ids) <= Seen(me) + Requested(out))
    && (m.Deliver? ==> forall i, p :: i in me'.pending && i in u && p in Parents(u[i]) ==>
          p in me'.node.known || p in me'.pending || p in Requested(out))
    && (m.Hello? ==> HeadSet(me.node.store, me.node.known) <= Advertised(out))
    && (m.Want? ==> Elements(m.ids) <= Delivering(out))
  }

  lemma ArrivalIsHandled(
    crypto: Crypto, u: Events, community: Id, me: Peer, other: set<Id>, m: SyncMessage, me': Peer,
    out: seq<SyncMessage>)
    requires World(crypto, u, community) && Inhabits(crypto, u, community, me)
    requires u.Keys <= me.node.known + other
    requires InOrder(crypto, u, community, me.node.known, other, m)
    requires me.node.known <= me.node.store.Keys && Responds(crypto, me, m, me', out)
    ensures Inhabits(crypto, u, community, me') && me.node.known <= me'.node.known
    ensures Seen(me') == Seen(me) + if m.Deliver? then IdsOf(m.events) else {}
    ensures m.Deliver? || me' == me
    ensures AllInOrder(crypto, u, community, other, me'.node.known, out)
    ensures Handled(crypto, u, me, m, me', out)
  {
    RespondsBy(crypto, me, m, me', out);
    if m.Deliver? {
      ValidDelivery(crypto, m);
    }
    ReceiverInhabits(crypto, u, community, me, m, me');
    AnswersInOrder(crypto, u, community, me, other, m, me', out);
    ReceiverKeepsTrack(crypto, u, me, m, me', out);
    SenderIsAnswered(crypto, u, community, me, m, me', out);
  }

  lemma ArrivalKeepsServed(
    crypto: Crypto, u: Events, community: Id, me: Peer, other: Peer, ins: seq<SyncMessage>, outs: seq<SyncMessage>,
    i: nat, me': Peer, out: seq<SyncMessage>)
    requires World(crypto, u, community) && i < |ins|
    requires Inhabits(crypto, u, community, me) && Inhabits(crypto, u, community, me')
    requires Inhabits(crypto, u, community, other)
    requires u.Keys <= me.node.known + other.node.known && me.node.known <= me'.node.known
    requires Served(u, me, ins, outs) && Served(u, other, outs, ins)
    requires Seen(me') == Seen(me) + if ins[i].Deliver? then IdsOf(ins[i].events) else {}
    requires ins[i].Deliver? || me' == me
    requires me.node.known <= me.node.store.Keys && Handled(crypto, u, me, ins[i], me', out)
    ensures Served(u, me', Without(ins, i), outs + out) && Served(u, other, outs + out, Without(ins, i))
  {
    KnownIsWorldly(crypto, u, community, me);
    KnownIsWorldly(crypto, u, community, me');
    KnownIsWorldly(crypto, u, community, other);
    ReceiverIsServed(u, me.node.known, me.pending.Keys, ins, outs, i, me'.node.known, me'.pending.Keys, out);
    SenderIsServed(u, me.node.store, me.node.known, other.node.known, other.pending.Keys, ins, outs, i, out);
  }

  lemma InFlightInOrder(
    crypto: Crypto, u: Events, community: Id, me: set<Id>, other: set<Id>, me': set<Id>,
    ins: seq<SyncMessage>, outs: seq<SyncMessage>, i: nat, out: seq<SyncMessage>)
    requires i < |ins| && me <= me'
    requires AllInOrder(crypto, u, community, me, other, ins) && AllInOrder(crypto, u, community, other, me, outs)
    requires AllInOrder(crypto, u, community, other, me', out)
    ensures AllInOrder(crypto, u, community, me', other, Without(ins, i))
    ensures AllInOrder(crypto, u, community, other, me', outs + out)
  {
    UnderWayAfter(ins, i);
    InOrderGrows(crypto, u, community, me, other, me', other, ins, Without(ins, i));
    InOrderGrows(crypto, u, community, other, me, other, me', outs, outs);
  }

  lemma TurnKeepsGood(
    crypto: Crypto, u: Events, community: Id, net: Net, i: nat, me': Peer, out: seq<SyncMessage>)
    requires Good(crypto, u, community, net) && i < |net.toLeft|
    requires net.left.node.known <= net.left.node.store.Keys && Responds(crypto, net.left, net.toLeft[i], me', out)
    ensures Good(crypto, u, community, Net(me', net.right, Without(net.toLeft, i), net.toRight + out))
    ensures Seen(me') == Seen(net.left) + if net.toLeft[i].Deliver? then IdsOf(net.toLeft[i].events) else {}
  {
    var me, other := net.left, net.right;
    assert net.toLeft[i] in net.toLeft;
    ArrivalIsHandled(crypto, u, community, me, other.node.known, net.toLeft[i], me', out);
    ArrivalKeepsServed(crypto, u, community, me, other, net.toLeft, net.toRight, i, me', out);
    InFlightInOrder(
      crypto, u, community, me.node.known, other.node.known, me'.node.known, net.toLeft, net.toRight, i, out);
    UnionStays(u.Keys, me.node.known, me'.node.known, other.node.known);
  }

  lemma UnionStays(all: set<Id>, me: set<Id>, me': set<Id>, other: set<Id>)
    requires me + other == all && me <= me' <= all
    ensures me' + other == all
  {
  }

  lemma ArrivalKeepsGood(crypto: Crypto, u: Events, community: Id, net: Net, i: nat, out: seq<SyncMessage>, net': Net)
    requires Good(crypto, u, community, net) && ArrivesLeft(crypto, net, i, out, net')
    ensures Good(crypto, u, community, net')
    ensures Seen(net'.left) == Seen(net.left) + if net.toLeft[i].Deliver? then IdsOf(net.toLeft[i].events) else {}
  {
    TurnKeepsGood(crypto, u, community, net, i, net'.left, out);
  }

  /** Whatever arrives next, at either peer, the exchange stays good. */
  lemma StepKeepsGood(crypto: Crypto, u: Events, community: Id, net: Net, net': Net)
    requires Good(crypto, u, community, net) && NetStep(crypto, net, net')
    ensures Good(crypto, u, community, net')
  {
    if i: nat, out :| ArrivesLeft(crypto, net, i, out, net') {
      ArrivalKeepsGood(crypto, u, community, net, i, out, net');
    } else {
      var i: nat, out :| ArrivesLeft(crypto, Flip(net), i, out, Flip(net'));
      GoodFlips(crypto, u, community, net);
      ArrivalKeepsGood(crypto, u, community, Flip(net), i, out, Flip(net'));
      GoodFlips(crypto, u, community, Flip(net'));
    }
  }
}
