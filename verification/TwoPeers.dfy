/**
 Two honest peers of one community exchanging messages, each message delivered at any time and in any
 order. Whatever the schedule, no message is refused, the exchange ends, and when it ends both peers
 know everything either knew.
 */
module TwoPeers {
  import opened Wrappers
  import opened Protocol
  import opened Ordering
  import opened Closure
  import opened Node
  import opened SyncMessages
  import opened SyncState
  import opened SyncTheorems

  /** Both peers and the messages in flight to each; any of them may arrive next. */
  datatype Net = Net(left: Peer, right: Peer, toLeft: seq<SyncMessage>, toRight: seq<SyncMessage>)

  function Flip(net: Net): Net {
    Net(net.right, net.left, net.toRight, net.toLeft)
  }

  function Without<T>(s: seq<T>, i: nat): seq<T>
    requires i < |s|
  {
    s[..i] + s[i + 1..]
  }

  /** The i-th message to the left peer arrives and is answered with `out`. */
  ghost predicate ArrivesLeft(crypto: Crypto, net: Net, i: nat, out: seq<SyncMessage>, net': Net) {
    && i < |net.toLeft|
    && net.left.node.known <= net.left.node.store.Keys
    && ReceiveFault(crypto, net.left, net.toLeft[i]).None?
    && Responds(crypto, net.left, net.toLeft[i], net'.left, out)
    && net' == Net(net'.left, net.right, Without(net.toLeft, i), net.toRight + out)
  }

  /** Some message arrives at one of the peers. */
  ghost predicate NetStep(crypto: Crypto, net: Net, net': Net) {
    || (exists i: nat, out :: ArrivesLeft(crypto, net, i, out, net'))
    || (exists i: nat, out :: ArrivesLeft(crypto, Flip(net), i, out, Flip(net')))
  }

  // ------------------------------------------------------------------ what the peers share

  /** All events of both peers: valid, of one community, parent-closed and without cycles. */
  ghost predicate World(crypto: Crypto, u: Events, community: Id) {
    && Indexed(u)
    && (forall i :: i in u ==> ValidEvent(crypto, u[i]) && Belongs(u[i], community))
    && Grounded(u, u.Keys)
  }

  /** A peer that lives in the world: its events are the world's, and the world lacks it little. */
  ghost predicate Inhabits(crypto: Crypto, u: Events, community: Id, peer: Peer) {
    && SoundPeer(crypto, peer)
    && peer.community == community && peer.quota.None?
    && peer.node.known <= u.Keys
    && (forall i :: i in peer.node.store && i in u ==> peer.node.store[i] == u[i])
    && (forall i :: i in peer.pending ==> i in u && peer.pending[i] == u[i])
    && |u.Keys - peer.node.known| <= MAX_PENDING_SYNC_EVENTS
  }

  /** Delivered events are the world's. */
  ghost predicate FromWorld(u: Events, events: seq<SignedEvent>) {
    forall e :: e in events ==> e.id in u && u[e.id] == e
  }

  /** A message in flight from `sender` to `receiver`. */
  ghost predicate InOrder(
    crypto: Crypto, u: Events, community: Id, receiver: set<Id>, sender: set<Id>, m: SyncMessage)
  {
    && ValidMessage(crypto, m) && m.community == community
    && (m.Heads? ==> Elements(m.ids) <= sender)
    && (m.Want? ==> m.ids != [] && Elements(m.ids) <= receiver)
    && (m.Deliver? ==> FromWorld(u, m.events))
  }

  ghost predicate AllInOrder(
    crypto: Crypto, u: Events, community: Id, receiver: set<Id>, sender: set<Id>, messages: seq<SyncMessage>)
  {
    forall m :: m in messages ==> InOrder(crypto, u, community, receiver, sender, m)
  }

  // ------------------------------------------------------------------ what is under way to a peer

  ghost predicate HelloAmong(messages: seq<SyncMessage>) {
    exists m :: m in messages && m.Hello?
  }

  function Advertised(messages: seq<SyncMessage>): set<Id> {
    set m, x | m in messages && m.Heads? && x in m.ids :: x
  }

  function Requested(messages: seq<SyncMessage>): set<Id> {
    set m, x | m in messages && m.Want? && x in m.ids :: x
  }

  function Delivering(messages: seq<SyncMessage>): set<Id> {
    set m, e | m in messages && m.Deliver? && e in m.events :: e.id
  }

  /** Some event the peer does not know names `e` as a parent. */
  ghost predicate UnknownChild(u: Events, known: set<Id>, e: Id) {
    exists c :: c in u && c !in known && e in Parents(u[c])
  }

  /**
   Nothing is forgotten: an event the peer lacks is on its way in some form, or is a parent of another
   event it lacks, unless the peer's Hello has still to arrive; and a parent of a pending event is
   known, pending, asked for or being delivered.
   */
  ghost predicate NothingForgotten(
    u: Events, known: set<Id>, pending: set<Id>, hello: bool, adv: set<Id>, del: set<Id>, req: set<Id>)
  {
    && (forall e :: e in u && e !in known ==>
          hello || e in pending || e in adv || e in del || e in req || UnknownChild(u, known, e))
    && (forall i, p :: i in pending && i in u && p in Parents(u[i]) ==>
          p in known || p in pending || p in del || p in req)
  }

  /** `ins` are the messages in flight to the peer, `outs` those in flight from it. */
  ghost predicate Served(u: Events, peer: Peer, ins: seq<SyncMessage>, outs: seq<SyncMessage>) {
    NothingForgotten(u, peer.node.known, peer.pending.Keys, HelloAmong(outs),
                     Advertised(ins), Delivering(ins), Requested(outs))
  }

  /** The invariant of every reachable state of the exchange. */
  ghost predicate Good(crypto: Crypto, u: Events, community: Id, net: Net) {
    && World(crypto, u, community)
    && Inhabits(crypto, u, community, net.left) && Inhabits(crypto, u, community, net.right)
    && net.left.node.known + net.right.node.known == u.Keys
    && AllInOrder(crypto, u, community, net.left.node.known, net.right.node.known, net.toLeft)
    && AllInOrder(crypto, u, community, net.right.node.known, net.left.node.known, net.toRight)
    && Served(u, net.left, net.toLeft, net.toRight)
    && Served(u, net.right, net.toRight, net.toLeft)
  }

  lemma GoodFlips(crypto: Crypto, u: Events, community: Id, net: Net)
    requires Good(crypto, u, community, net)
    ensures Good(crypto, u, community, Flip(net))
  {
  }

  // ------------------------------------------------------------------ no message is refused

  lemma DeliveryFits(crypto: Crypto, u: Events, community: Id, peer: Peer, events: seq<SignedEvent>)
    requires World(crypto, u, community) && Inhabits(crypto, u, community, peer) && FromWorld(u, events)
    ensures AcceptFault(peer, events).None?
  {
    SizesFit(u, peer, events);
    NoFault(crypto, u, community, peer, events);
  }

  lemma SizesFit(u: Events, peer: Peer, events: seq<SignedEvent>)
    requires FromWorld(u, events) && peer.pending.Keys <= u.Keys - peer.node.known
    requires |u.Keys - peer.node.known| <= MAX_PENDING_SYNC_EVENTS
    ensures |peer.pending| + |NewOnes(peer, events)| <= MAX_PENDING_SYNC_EVENTS
  {
    NewIsWorldly(u, peer, events);
    SizeFits(u.Keys, peer.node.known, peer.pending.Keys, NewOnes(peer, events).Keys);
  }

  lemma DeliveryAgrees(u: Events, peer: Peer, events: seq<SignedEvent>)
    requires FromWorld(u, events)
    requires forall i :: i in peer.node.store && i in u ==> peer.node.store[i] == u[i]
    requires forall i :: i in peer.pending ==> i in u && peer.pending[i] == u[i]
    ensures NoClashWith(peer, events)
    ensures forall i :: i in Collected(peer, events) ==> i in u && Collected(peer, events)[i] == u[i]
  {
    NewIsWorldly(u, peer, events);
  }

  lemma NewIsWorldly(u: Events, peer: Peer, events: seq<SignedEvent>)
    requires FromWorld(u, events)
    ensures forall i :: i in NewOnes(peer, events) ==>
              i in u && NewOnes(peer, events)[i] == u[i] && i !in peer.node.known && i !in peer.pending
  {
    var batch := BatchOf(events);
    forall i | i in batch
      ensures i in u && batch[i] == u[i]
    {
      assert batch[i] in events;
    }
  }

  lemma NoFault(crypto: Crypto, u: Events, community: Id, peer: Peer, events: seq<SignedEvent>)
    requires World(crypto, u, community) && FromWorld(u, events)
    requires peer.community == community && peer.quota.None?
    requires |peer.pending| + |NewOnes(peer, events)| <= MAX_PENDING_SYNC_EVENTS
    ensures AcceptFault(peer, events).None?
  {
    assert AllBelong(events, community);
  }

  lemma SizeFits(all: set<Id>, known: set<Id>, pending: set<Id>, new_: set<Id>)
    requires pending + new_ <= all - known && pending !! new_ && |all - known| <= MAX_PENDING_SYNC_EVENTS
    ensures |pending| + |new_| <= MAX_PENDING_SYNC_EVENTS
  {
    SubsetIsNoLarger(pending + new_, all - known);
    assert |pending + new_| == |pending| + |new_|;
  }

  /** In a good state no message in flight is refused. */
  lemma NoMessageIsRefused(crypto: Crypto, u: Events, community: Id, net: Net, i: nat)
    requires Good(crypto, u, community, net) && i < |net.toLeft|
    ensures ReceiveFault(crypto, net.left, net.toLeft[i]).None?
    ensures net.toLeft[i].Deliver? ==> NoClashWith(net.left, net.toLeft[i].events)
  {
    var m := net.toLeft[i];
    assert m in net.toLeft;
    assert InOrder(crypto, u, community, net.left.node.known, net.right.node.known, m);
    if m.Deliver? {
      DeliveryFits(crypto, u, community, net.left, m.events);
      DeliveryAgrees(u, net.left, m.events);
    }
  }

  // ------------------------------------------------------------------ quiescence means convergence

  /** With nothing in flight, everything the peer lacks is pending. */
  lemma LackingIsPending(u: Events, known: set<Id>, pending: set<Id>)
    requires Grounded(u, u.Keys) && pending <= u.Keys
    requires NothingForgotten(u, known, pending, false, {}, {}, {})
    ensures u.Keys <= known + pending
  {
    var stray := u.Keys - known - pending;
    if stray != {} {
      var top := GroundedHasMaximal(u, u.Keys, stray);
    }
  }

  /** Pending events that all wait for a parent cannot be all that is missing. */
  lemma NothingWaits(u: Events, known: set<Id>, pending: Events)
    requires Grounded(u, u.Keys) && u.Keys <= known + pending.Keys
    requires forall i :: i in pending ==> i in u && pending[i] == u[i]
    requires Ready(known, pending) == {}
    ensures u.Keys <= known
  {
    forall i | i in pending
      ensures !(Parents(pending[i]) <= known)
    {
      assert i !in Ready(known, pending);
    }
    GroundedInduction(u, u.Keys, known);
  }

  lemma NothingUnderWay()
    ensures !HelloAmong([]) && Advertised([]) == {} && Delivering([]) == {} && Requested([]) == {}
  {
  }

  lemma ServedPeerConverges(crypto: Crypto, u: Events, community: Id, peer: Peer)
    requires World(crypto, u, community) && Inhabits(crypto, u, community, peer)
    requires Served(u, peer, [], [])
    ensures peer.node.known == u.Keys && peer.pending == map[]
  {
    NothingUnderWay();
    LackingIsPending(u, peer.node.known, peer.pending.Keys);
    NothingWaits(u, peer.node.known, peer.pending);
    assert peer.pending.Keys == {};
  }

  /** Once nothing is in flight, both peers know everything either knew and hold nothing back. */
  lemma QuiescenceIsConvergence(crypto: Crypto, u: Events, community: Id, net: Net)
    requires Good(crypto, u, community, net)
    requires net.toLeft == [] && net.toRight == []
    ensures net.left.node.known == u.Keys && net.right.node.known == u.Keys
    ensures net.left.pending == map[] && net.right.pending == map[]
  {
    ServedPeerConverges(crypto, u, community, net.left);
    ServedPeerConverges(crypto, u, community, net.right);
  }

  // ------------------------------------------------------------------ one arrival

  /** Removing one message and appending others, in terms of what is under way. */
  lemma UnderWayAfter(ms: seq<SyncMessage>, i: nat)
    requires i < |ms|
    ensures var rest := Without(ms, i);
            && (forall m :: m in rest ==> m in ms)
            && (forall m :: m in ms ==> m in rest || m == ms[i])
  {
    var rest := Without(ms, i);
    forall m | m in ms
      ensures m in rest || m == ms[i]
    {
      var k :| 0 <= k < |ms| && ms[k] == m;
      if k < i {
        assert rest[k] == m;
      } else if k > i {
        assert rest[k - 1] == m;
      }
    }
  }

  /** Knowing more, and tracking at least what was tracked, forgets nothing. */
  lemma TrackingCarriesOver(
    u: Events, known: set<Id>, pending: set<Id>, hello: bool, adv: set<Id>, del: set<Id>, req: set<Id>,
    known': set<Id>, pending': set<Id>, hello': bool, adv': set<Id>, del': set<Id>, req': set<Id>)
    requires NothingForgotten(u, known, pending, hello, adv, del, req)
    requires known <= known' && (hello ==> hello')
    requires forall c, p :: c in known' && c in u && p in Parents(u[c]) ==> p in known'
    requires pending + adv + del + req <= known' + pending' + adv' + del' + req'
    requires forall i, p :: i in pending' && i in u && p in Parents(u[i]) ==>
               p in known' || p in pending' || p in del' || p in req'
    ensures NothingForgotten(u, known', pending', hello', adv', del', req')
  {
    forall e | e in u && e !in known'
      ensures hello' || e in pending' || e in adv' || e in del' || e in req' || UnknownChild(u, known', e)
    {
      if UnknownChild(u, known, e) {
        var c :| c in u && c !in known && e in Parents(u[c]);
        assert c !in known';
        assert UnknownChild(u, known', e);
      }
    }
  }

  lemma UnderWayGrows(a: seq<SyncMessage>, b: seq<SyncMessage>)
    requires forall m :: m in a ==> m in b
    ensures HelloAmong(a) ==> HelloAmong(b)
    ensures Advertised(a) <= Advertised(b) && Requested(a) <= Requested(b) && Delivering(a) <= Delivering(b)
  {
  }

  lemma UnderWayLoses(ms: seq<SyncMessage>, i: nat)
    requires i < |ms|
    ensures var rest, m := Without(ms, i), ms[i];
            && (HelloAmong(ms) && !m.Hello? ==> HelloAmong(rest))
            && Advertised(ms) <= Advertised(rest) + (if m.Heads? then Elements(m.ids) else {})
            && Requested(ms) <= Requested(rest) + (if m.Want? then Elements(m.ids) else {})
            && Delivering(ms) <= Delivering(rest) + (if m.Deliver? then IdsOf(m.events) else {})
  {
    UnderWayAfter(ms, i);
  }

  // ------------------------------------------------------------------ the answers are in order

  lemma InOrderGrows(
    crypto: Crypto, u: Events, community: Id, receiver: set<Id>, sender: set<Id>, receiver': set<Id>, sender': set<Id>,
    messages: seq<SyncMessage>, messages': seq<SyncMessage>)
    requires AllInOrder(crypto, u, community, receiver, sender, messages)
    requires receiver <= receiver' && sender <= sender'
    requires forall m :: m in messages' ==> m in messages
    ensures AllInOrder(crypto, u, community, receiver', sender', messages')
  {
  }

  /** Everything a peer lacks, the other has: so what it asks for can be served. */
  lemma WantsInOrder(crypto: Crypto, u: Events, community: Id, ids: seq<Id>, other: set<Id>, me: set<Id>)
    requires StrictlySorted(ids) && Elements(ids) <= other
    ensures AllInOrder(crypto, u, community, other, me, WantMessages(community, ids))
  {
    WantsAreValid(crypto, community, ids);
  }

  lemma HeadsInOrder(crypto: Crypto, u: Events, community: Id, ids: seq<Id>, other: set<Id>, me: set<Id>)
    requires StrictlySorted(ids) && Elements(ids) <= me
    ensures AllInOrder(crypto, u, community, other, me, HeadMessages(community, ids))
  {
    HeadsAreValid(crypto, community, ids);
  }

  /** Parents of pending events are of the world. */
  lemma MissingIsWorldly(u: Events, known: set<Id>, pending: Events)
    requires Grounded(u, u.Keys)
    requires forall i :: i in pending ==> i in u && pending[i] == u[i]
    ensures Missing(known, pending) <= u.Keys - known
  {
    GroundedHoldsParents(u, u.Keys);
    forall p | p in Missing(known, pending)
      ensures p in u.Keys
    {
      var i :| i in pending && p in pending[i].content.parents;
      assert p in Parents(u[i]);
    }
  }
}
