/**
 The whole exchange: two peers of one community greet each other, and whatever the order of delivery
 they end up knowing the same events (crates/sync/tests/sync_flow.rs drives the program this way).
 */
module Exchange {
  import opened Wrappers
  import opened Protocol
  import opened Closure
  import opened Node
  import opened NodeTheorems
  import opened SyncMessages
  import opened SyncState
  import opened SyncPeers
  import opened TwoPeers
  import opened Convergence
  import opened Termination

  // ------------------------------------------------------------------ before the exchange

  /** A peer as created for a community, over a node built by ingestion, with no quota. */
  ghost predicate Fresh(crypto: Crypto, community: Id, peer: Peer) {
    && Sound(crypto, peer.node) && peer.community == community
    && (peer.node.community.Some? ==> peer.node.community.value == community)
    && peer.pending == map[] && peer.quota.None?
  }

  /** The collections do not give one id to two events. */
  ghost predicate Agree(a: Events, b: Events) {
    forall i :: i in a && i in b ==> a[i] == b[i]
  }

  /** Fresh peers whose stores do not contradict each other, neither lacking more than 1024 events. */
  ghost predicate CanMeet(crypto: Crypto, community: Id, a: Peer, b: Peer) {
    && Fresh(crypto, community, a) && Fresh(crypto, community, b)
    && Agree(a.node.store, b.node.store)
    && |b.node.known - a.node.known| <= MAX_PENDING_SYNC_EVENTS
    && |a.node.known - b.node.known| <= MAX_PENDING_SYNC_EVENTS
  }

  function Greeting(community: Id): SyncMessage {
    Hello(SYNC_VERSION, [PROTOCOL_VERSION], community)
  }

  function Start(community: Id, a: Peer, b: Peer): Net {
    Net(a, b, [Greeting(community)], [Greeting(community)])
  }

  /** Everything either peer knows. */
  function Union(a: Peer, b: Peer): (u: Events)
    requires a.node.known <= a.node.store.Keys && b.node.known <= b.node.store.Keys
    ensures u.Keys == a.node.known + b.node.known
  {
    map i | i in a.node.known + b.node.known :: if i in a.node.known then a.node.store[i] else b.node.store[i]
  }

  lemma UnionIsAWorld(crypto: Crypto, community: Id, a: Peer, b: Peer)
    requires CanMeet(crypto, community, a, b)
    ensures a.node.known <= a.node.store.Keys && b.node.known <= b.node.store.Keys
    ensures World(crypto, Union(a, b), community)
  {
    GroundedHoldsParents(a.node.store, a.node.known);
    GroundedHoldsParents(b.node.store, b.node.known);
    var u := Union(a, b);
    GroundedTransfers(a.node.store, u, a.node.known);
    GroundedTransfers(b.node.store, u, b.node.known);
    GroundedUnion(u, a.node.known, b.node.known);
    forall i | i in u
      ensures u[i].id == i && ValidEvent(crypto, u[i]) && Belongs(u[i], community)
    {
      RowIsSound(crypto, community, a, i);
      RowIsSound(crypto, community, b, i);
    }
  }

  lemma RowIsSound(crypto: Crypto, community: Id, peer: Peer, i: Id)
    requires Fresh(crypto, community, peer) && peer.node.known <= peer.node.store.Keys
    ensures i in peer.node.known ==>
              var e := peer.node.store[i]; e.id == i && ValidEvent(crypto, e) && Belongs(e, community)
  {
  }

  lemma FreshPeerIsSound(crypto: Crypto, community: Id, peer: Peer)
    requires Fresh(crypto, community, peer)
    ensures SoundPeer(crypto, peer)
  {
    assert Ready(peer.node.known, map[]) == {};
  }

  lemma FreshPeerInhabits(crypto: Crypto, community: Id, u: Events, peer: Peer, other: set<Id>)
    requires Fresh(crypto, community, peer) && u.Keys == peer.node.known + other
    requires |other - peer.node.known| <= MAX_PENDING_SYNC_EVENTS
    requires Agree(peer.node.store, u)
    ensures Inhabits(crypto, u, community, peer)
  {
    FreshPeerIsSound(crypto, community, peer);
    LacksTheOther(u.Keys, peer.node.known, other);
  }

  lemma LacksTheOther(all: set<Id>, known: set<Id>, other: set<Id>)
    requires all == known + other
    ensures all - known == other - known && known <= all
  {
  }

  lemma GreetingIsInOrder(crypto: Crypto, u: Events, community: Id, receiver: set<Id>, sender: set<Id>)
    ensures AllInOrder(crypto, u, community, receiver, sender, [Greeting(community)])
  {
    HelloIsValid(crypto, community);
  }

  lemma GreetingServes(u: Events, peer: Peer, ins: seq<SyncMessage>, community: Id)
    requires peer.pending == map[]
    ensures Served(u, peer, ins, [Greeting(community)])
  {
    assert Greeting(community) in [Greeting(community)];
  }

  lemma UnionAgrees(a: Peer, b: Peer)
    requires a.node.known <= a.node.store.Keys && b.node.known <= b.node.store.Keys
    requires Agree(a.node.store, b.node.store)
    ensures Agree(a.node.store, Union(a, b)) && Agree(b.node.store, Union(a, b))
  {
  }

  lemma LeftInhabits(crypto: Crypto, community: Id, a: Peer, b: Peer, u: Events)
    requires Fresh(crypto, community, a) && |b.node.known - a.node.known| <= MAX_PENDING_SYNC_EVENTS
    requires a.node.known <= a.node.store.Keys && b.node.known <= b.node.store.Keys
    requires Agree(a.node.store, b.node.store) && u == Union(a, b)
    ensures Inhabits(crypto, u, community, a)
  {
    UnionAgrees(a, b);
    FreshPeerInhabits(crypto, community, u, a, b.node.known);
  }

  lemma RightInhabits(crypto: Crypto, community: Id, a: Peer, b: Peer, u: Events)
    requires Fresh(crypto, community, b) && |a.node.known - b.node.known| <= MAX_PENDING_SYNC_EVENTS
    requires a.node.known <= a.node.store.Keys && b.node.known <= b.node.store.Keys
    requires Agree(a.node.store, b.node.store) && u == Union(a, b)
    ensures Inhabits(crypto, u, community, b)
  {
    UnionAgrees(a, b);
    FreshPeerInhabits(crypto, community, u, b, a.node.known);
  }

  /** The invariant holds when the two greetings are in flight. */
  lemma StartIsGood(crypto: Crypto, community: Id, a: Peer, b: Peer)
    requires CanMeet(crypto, community, a, b)
    ensures a.node.known <= a.node.store.Keys && b.node.known <= b.node.store.Keys
    ensures Good(crypto, Union(a, b), community, Start(community, a, b))
  {
    UnionIsAWorld(crypto, community, a, b);
    var u, greeting := Union(a, b), [Greeting(community)];
    LeftInhabits(crypto, community, a, b, u);
    RightInhabits(crypto, community, a, b, u);
    GreetingIsInOrder(crypto, u, community, a.node.known, b.node.known);
    GreetingIsInOrder(crypto, u, community, b.node.known, a.node.known);
    GreetingServes(u, a, greeting, community);
    GreetingServes(u, b, greeting, community);
  }

  // ------------------------------------------------------------------ every schedule

  ghost predicate Quiet(net: Net) {
    net.toLeft == [] && net.toRight == []
  }

  ghost predicate Moves(crypto: Crypto, run: nat -> Net, n: nat) {
    !Quiet(run(n)) ==> NetStep(crypto, run(n), run(n + 1))
  }

  /** While anything is in flight, some message arrives next; which one is up to the schedule. */
  ghost predicate Schedule(crypto: Crypto, run: nat -> Net) {
    forall n: nat :: Moves(crypto, run, n)
  }

  /** What every step keeps holds after any number of steps. */
  lemma {:induction false} HoldsAlong(holds: Net -> bool, step: (Net, Net) -> bool, run: nat -> Net, n: nat)
    requires holds(run(0))
    requires forall net, net' :: holds(net) && step(net, net') ==> holds(net')
    requires forall k: nat, j: nat :: k < n && j == k + 1 ==> step(run(k), run(j))
    ensures holds(run(n))
  {
    if n > 0 {
      HoldsAlong(holds, step, run, n - 1);
      assert step(run(n - 1), run(n));
    }
  }

  lemma GoodIsInductive(crypto: Crypto, u: Events, community: Id)
    ensures forall net, net' ::
              Good(crypto, u, community, net) && NetStep(crypto, net, net') ==> Good(crypto, u, community, net')
  {
    forall net, net' | Good(crypto, u, community, net) && NetStep(crypto, net, net')
      ensures Good(crypto, u, community, net')
    {
      StepKeepsGood(crypto, u, community, net, net');
    }
  }

  lemma ScheduleSteps(crypto: Crypto, run: nat -> Net, n: nat)
    requires Schedule(crypto, run) && forall k: nat :: k < n ==> !Quiet(run(k))
    ensures forall k: nat, j: nat :: k < n && j == k + 1 ==> NetStep(crypto, run(k), run(j))
  {
    forall k: nat, j: nat | k < n && j == k + 1
      ensures NetStep(crypto, run(k), run(j))
    {
      assert Moves(crypto, run, k);
    }
  }

  /** Every state up to the first quiet one is good. */
  lemma GoodUntilQuiet(crypto: Crypto, u: Events, community: Id, run: nat -> Net, n: nat)
    requires Good(crypto, u, community, run(0)) && Schedule(crypto, run)
    requires forall k: nat :: k < n ==> !Quiet(run(k))
    ensures Good(crypto, u, community, run(n))
  {
    GoodIsInductive(crypto, u, community);
    ScheduleSteps(crypto, run, n);
    HoldsAlong(net => Good(crypto, u, community, net), (net, net') => NetStep(crypto, net, net'), run, n);
  }

  lemma {:induction false} FirstQuiet(run: nat -> Net, n: nat) returns (first: nat)
    requires Quiet(run(n))
    ensures first <= n && Quiet(run(first)) && forall k: nat :: k < first ==> !Quiet(run(k))
    decreases n
  {
    first := n;
    if k: nat :| k < n && Quiet(run(k)) {
      first := FirstQuiet(run, k);
    }
  }

  /** Both peers know all of `all` and hold nothing back. */
  ghost predicate Converged(net: Net, all: set<Id>) {
    && net.left.node.known == all && net.right.node.known == all
    && net.left.pending == map[] && net.right.pending == map[]
  }

  /** Nothing in flight is refused by the peer it is for. */
  ghost predicate NoRefusal(crypto: Crypto, net: Net) {
    && (forall m :: m in net.toLeft ==> ReceiveFault(crypto, net.left, m).None?)
    && (forall m :: m in net.toRight ==> ReceiveFault(crypto, net.right, m).None?)
  }

  lemma GoodMeansNoRefusal(crypto: Crypto, u: Events, community: Id, net: Net)
    requires Good(crypto, u, community, net)
    ensures NoRefusal(crypto, net)
  {
    GoodFlips(crypto, u, community, net);
    forall m | m in net.toLeft
      ensures ReceiveFault(crypto, net.left, m).None?
    {
      var i :| 0 <= i < |net.toLeft| && net.toLeft[i] == m;
      NoMessageIsRefused(crypto, u, community, net, i);
    }
    forall m | m in net.toRight
      ensures ReceiveFault(crypto, net.right, m).None?
    {
      var i :| 0 <= i < |net.toRight| && net.toRight[i] == m;
      NoMessageIsRefused(crypto, u, community, Flip(net), i);
    }
  }

  /**
   Whatever the schedule, after finitely many arrivals nothing is in flight; until then no message is
   refused; and then both peers know exactly what either knew at first and hold nothing pending.
   */
  lemma SyncConverges(crypto: Crypto, community: Id, a: Peer, b: Peer, run: nat -> Net) returns (n: nat)
    requires CanMeet(crypto, community, a, b)
    requires run(0) == Start(community, a, b) && Schedule(crypto, run)
    ensures Quiet(run(n)) && Converged(run(n), a.node.known + b.node.known)
    ensures forall k: nat :: k <= n ==> NoRefusal(crypto, run(k))
  {
    StartIsGood(crypto, community, a, b);
    n := RunBecomesQuiet(crypto, Union(a, b), community, run);
    QuiescenceIsConvergence(crypto, Union(a, b), community, run(n));
  }

  lemma RunBecomesQuiet(crypto: Crypto, u: Events, community: Id, run: nat -> Net) returns (n: nat)
    requires Good(crypto, u, community, run(0)) && Schedule(crypto, run)
    ensures Quiet(run(n)) && Good(crypto, u, community, run(n))
    ensures forall k: nat :: k <= n ==> NoRefusal(crypto, run(k))
  {
    n := SomeQuiet(crypto, u, community, run);
    n := FirstQuiet(run, n);
    forall k: nat | k <= n
      ensures NoRefusal(crypto, run(k))
    {
      GoodUntilQuiet(crypto, u, community, run, k);
      GoodMeansNoRefusal(crypto, u, community, run(k));
    }
    GoodUntilQuiet(crypto, u, community, run, n);
  }

  lemma SomeQuiet(crypto: Crypto, u: Events, community: Id, run: nat -> Net) returns (n: nat)
    requires Good(crypto, u, community, run(0)) && Schedule(crypto, run)
    ensures Quiet(run(n))
  {
    RunEndsFrom(crypto, u, community, run, 0, MeasureOf(u, run(0)));
    n :| !NetStep(crypto, run(n), run(n + 1));
    assert Moves(crypto, run, n);
  }

  // ------------------------------------------------------------------ driving two peer objects

  /** Delivers the i-th message in flight to `me`. */
  method DeliverOne(
    crypto: Crypto, ghost u: Events, me: SyncPeer, other: SyncPeer, ins: seq<SyncMessage>, outs: seq<SyncMessage>,
    i: nat)
    returns (ins': seq<SyncMessage>, outs': seq<SyncMessage>)
    requires me != other && me.node != other.node && i < |ins|
    requires Good(crypto, u, me.community, Net(me.View(), other.View(), ins, outs))
    modifies me, me.node
    ensures Good(crypto, u, me.community, Net(me.View(), other.View(), ins', outs'))
    ensures Below(MeasureOf(u, Net(me.View(), other.View(), ins', outs')),
                  MeasureOf(u, old(Net(me.View(), other.View(), ins, outs))))
  {
    ghost var net := Net(me.View(), other.View(), ins, outs);
    NoMessageIsRefused(crypto, u, me.community, net, i);
    var r := me.Receive(crypto, ins[i]);
    ins', outs' := ins[..i] + ins[i + 1..], outs + r.value;
    ghost var net' := Net(me.View(), other.View(), ins', outs');
    assert ArrivesLeft(crypto, net, i, r.value, net');
    ArrivalKeepsGood(crypto, u, me.community, net, i, r.value, net');
    ArrivalDescends(crypto, u, me.community, net, i, r.value, net');
  }

  /** Greets both ways and delivers messages, in any order, until none is in flight. */
  method Drive(crypto: Crypto, a: SyncPeer, b: SyncPeer)
    requires a != b && a.node != b.node
    requires CanMeet(crypto, a.community, a.View(), b.View())
    modifies a, a.node, b, b.node
    ensures a.node.known == old(a.node.known) + old(b.node.known) && b.node.known == a.node.known
    ensures a.pending == map[] && b.pending == map[]
  {
    ghost var community, startA, startB := a.community, a.View(), b.View();
    StartIsGood(crypto, community, startA, startB);
    ghost var u := Union(startA, startB);
    var toA, toB := [b.HelloMessage()], [a.HelloMessage()];
    ghost var measure := MeasureOf(u, Net(a.View(), b.View(), toA, toB));
    while toA != [] || toB != []
      invariant Good(crypto, u, community, Net(a.View(), b.View(), toA, toB))
      invariant measure == MeasureOf(u, Net(a.View(), b.View(), toA, toB))
      decreases measure.unseen, measure.c5, measure.c4, measure.c3, measure.c2, measure.c1, measure.c0
    {
      toA, toB := DeliverAny(crypto, u, a, b, toA, toB);
      measure := MeasureOf(u, Net(a.View(), b.View(), toA, toB));
    }
    QuiescenceIsConvergence(crypto, u, community, Net(a.View(), b.View(), toA, toB));
  }

  /** Delivers some message in flight, whichever it may be. */
  method DeliverAny(
    crypto: Crypto, ghost u: Events, a: SyncPeer, b: SyncPeer, toA: seq<SyncMessage>, toB: seq<SyncMessage>)
    returns (toA': seq<SyncMessage>, toB': seq<SyncMessage>)
    requires a != b && a.node != b.node && (toA != [] || toB != [])
    requires Good(crypto, u, a.community, Net(a.View(), b.View(), toA, toB))
    modifies a, a.node, b, b.node
    ensures Good(crypto, u, a.community, Net(a.View(), b.View(), toA', toB'))
    ensures Below(MeasureOf(u, Net(a.View(), b.View(), toA', toB')),
                  MeasureOf(u, old(Net(a.View(), b.View(), toA, toB))))
  {
    if {
      case toA != [] =>
        var i: nat :| i < |toA|;
        toA', toB' := DeliverOne(crypto, u, a, b, toA, toB, i);
      case toB != [] =>
        var i: nat :| i < |toB|;
        GoodFlips(crypto, u, a.community, Net(a.View(), b.View(), toA, toB));
        MeasureFlips(u, Net(a.View(), b.View(), toA, toB));
        toB', toA' := DeliverOne(crypto, u, b, a, toB, toA, i);
        GoodFlips(crypto, u, a.community, Net(b.View(), a.View(), toB', toA'));
        MeasureFlips(u, Net(a.View(), b.View(), toA', toB'));
    }
  }
}
