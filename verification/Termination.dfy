/**
 The exchange of two peers ends whatever the schedule, although a delivery that brings nothing new asks
 again for every missing parent. Messages are ranked so that each is answered by lower ranks only,
 except a delivery of something unseen, which leaves less unseen.
 */
module Termination {
  import opened Wrappers
  import opened Protocol
  import opened Ordering
  import opened Closure
  import opened Node
  import opened SyncMessages
  import opened SyncState
  import opened SyncTheorems
  import opened TwoPeers
  import opened Convergence

  // ------------------------------------------------------------------ ranks

  /** The rank of a message in flight, given what its receiver and its sender have seen. */
  function RankOf(receiver: set<Id>, sender: set<Id>, m: SyncMessage): nat {
    match m
    case Hello(_, _, _) => 5
    case Heads(_, _) => 4
    case Want(_, ids) => if Elements(ids) !! sender then 1 else 3
    case Deliver(_, events) => if IdsOf(events) <= receiver then 2 else 0
  }

  function Rank(receiver: set<Id>, sender: set<Id>): SyncMessage -> nat {
    m => RankOf(receiver, sender, m)
  }

  function Count(rank: SyncMessage -> nat, ms: seq<SyncMessage>, k: nat): nat {
    if ms == [] then 0 else (if rank(ms[0]) == k then 1 else 0) + Count(rank, ms[1..], k)
  }

  lemma {:induction false} CountAdds(rank: SyncMessage -> nat, a: seq<SyncMessage>, b: seq<SyncMessage>, k: nat)
    ensures Count(rank, a + b, k) == Count(rank, a, k) + Count(rank, b, k)
  {
    if a == [] {
      assert a + b == b;
    } else {
      assert (a + b)[1..] == a[1..] + b;
      CountAdds(rank, a[1..], b, k);
    }
  }

  lemma CountLoses(rank: SyncMessage -> nat, ms: seq<SyncMessage>, i: nat, k: nat)
    requires i < |ms|
    ensures Count(rank, ms, k) == Count(rank, Without(ms, i), k) + if rank(ms[i]) == k then 1 else 0
  {
    assert ms == ms[..i] + ([ms[i]] + ms[i + 1..]);
    CountAdds(rank, ms[..i], [ms[i]] + ms[i + 1..], k);
    CountAdds(rank, [ms[i]], ms[i + 1..], k);
    CountAdds(rank, ms[..i], ms[i + 1..], k);
    assert Count(rank, [ms[i]], k) == if rank(ms[i]) == k then 1 else 0;
  }

  lemma {:induction false} CountNone(rank: SyncMessage -> nat, ms: seq<SyncMessage>, k: nat)
    requires forall m :: m in ms ==> rank(m) != k
    ensures Count(rank, ms, k) == 0
  {
    if ms != [] {
      assert ms[0] in ms;
      CountNone(rank, ms[1..], k);
    }
  }

  // ------------------------------------------------------------------ the measure

  function Unseen2(u: Events, net: Net): nat {
    |u.Keys - Seen(net.left)| + |u.Keys - Seen(net.right)|
  }

  /** How many messages of rank `k` are in flight. */
  function InFlight(net: Net, k: nat): nat {
    Count(Rank(Seen(net.left), Seen(net.right)), net.toLeft, k)
    + Count(Rank(Seen(net.right), Seen(net.left)), net.toRight, k)
  }

  /** What is unseen, then the messages in flight by rank. */
  datatype Measure = Measure(unseen: nat, c5: nat, c4: nat, c3: nat, c2: nat, c1: nat, c0: nat)

  function MeasureOf(u: Events, net: Net): Measure {
    Measure(Unseen2(u, net), InFlight(net, 5), InFlight(net, 4), InFlight(net, 3),
            InFlight(net, 2), InFlight(net, 1), InFlight(net, 0))
  }

  /** `a` is lexicographically below `b`. */
  predicate Below(a: Measure, b: Measure) {
    a.unseen < b.unseen || (a.unseen == b.unseen && (
    a.c5 < b.c5 || (a.c5 == b.c5 && (
    a.c4 < b.c4 || (a.c4 == b.c4 && (
    a.c3 < b.c3 || (a.c3 == b.c3 && (
    a.c2 < b.c2 || (a.c2 == b.c2 && (
    a.c1 < b.c1 || (a.c1 == b.c1 && a.c0 < b.c0)))))))))))
  }

  lemma BelowByRank(unseen: nat, counts: nat -> nat, counts': nat -> nat, r: nat)
    requires r <= 5 && counts'(r) < counts(r)
    requires forall k: nat :: r < k <= 5 ==> counts'(k) == counts(k)
    ensures Below(Measure(unseen, counts'(5), counts'(4), counts'(3), counts'(2), counts'(1), counts'(0)),
                  Measure(unseen, counts(5), counts(4), counts(3), counts(2), counts(1), counts(0)))
  {
  }

  lemma MeasureFlips(u: Events, net: Net)
    ensures MeasureOf(u, Flip(net)) == MeasureOf(u, net)
  {
    assert forall k: nat :: InFlight(Flip(net), k) == InFlight(net, k);
  }

  // ------------------------------------------------------------------ answers rank lower

  /** A Want raised now names nothing its sender has seen. */
  lemma WantsRankLow(crypto: Crypto, community: Id, ids: seq<Id>, receiver: set<Id>, sender: set<Id>)
    requires StrictlySorted(ids) && Elements(ids) !! sender
    ensures forall m :: m in WantMessages(community, ids) ==> RankOf(receiver, sender, m) == 1
  {
    WantsAreValid(crypto, community, ids);
    forall m | m in WantMessages(community, ids)
      ensures RankOf(receiver, sender, m) == 1
    {
      assert Elements(m.ids) <= Elements(ids);
    }
  }

  /** A Want for unseen events is answered by deliveries of unseen events. */
  lemma DeliveriesRankLow(
    crypto: Crypto, community: Id, store: Events, ids: seq<Id>, receiver: set<Id>, sender: set<Id>,
    out: seq<SyncMessage>)
    requires Indexed(store)
    requires var events := StoredEvents(store, ids);
             if events == [] then out == [] else PackedAs(crypto, community, events, out)
    ensures forall m :: m in out ==> RankOf(receiver, sender, m) < if Elements(ids) !! receiver then 1 else 3
  {
    var events := StoredEvents(store, ids);
    if events != [] {
      PackedAreValid(crypto, community, events, out);
      forall m | m in out
        ensures RankOf(receiver, sender, m) < if Elements(ids) !! receiver then 1 else 3
      {
        StoredIdsAmong(store, ids);
        DeliveryRanksLow(crypto, ids, receiver, sender, m);
      }
    }
  }

  lemma StoredIdsAmong(store: Events, ids: seq<Id>)
    requires Indexed(store)
    ensures forall e :: e in StoredEvents(store, ids) ==> e.id in ids
  {
  }

  lemma DeliveryRanksLow(crypto: Crypto, ids: seq<Id>, receiver: set<Id>, sender: set<Id>, m: SyncMessage)
    requires m.Deliver? && ValidMessage(crypto, m) && forall e :: e in m.events ==> e.id in ids
    ensures RankOf(receiver, sender, m) < if Elements(ids) !! receiver then 1 else 3
  {
    var e := FirstDelivered(crypto, m);
    assert e.id in Elements(ids) && e.id in IdsOf(m.events);
  }

  lemma FirstDelivered(crypto: Crypto, m: SyncMessage) returns (e: SignedEvent)
    requires m.Deliver? && ValidMessage(crypto, m)
    ensures e in m.events
  {
    e := m.events[0];
  }

  /** Unless something unseen is delivered, the answers rank below the message. */
  lemma AnswersRankLower(crypto: Crypto, me: Peer, other: set<Id>, m: SyncMessage, me': Peer, out: seq<SyncMessage>)
    requires ReceiveFault(crypto, me, m).None?
    requires me.node.known <= me.node.store.Keys && Responds(crypto, me, m, me', out)
    requires forall i :: i in me.node.store ==> me.node.store[i].id == i
    requires Seen(me') == Seen(me) && (m.Deliver? ==> IdsOf(m.events) <= Seen(me))
    ensures forall a :: a in out ==> RankOf(other, Seen(me), a) < RankOf(Seen(me), other, m)
  {
    match m {
      case Hello(_, _, _) =>
      case Heads(_, ids) =>
        ValidIds(crypto, m);
        WantsRankLow(crypto, me.community, Unseen(me, ids), other, Seen(me));
      case Want(_, ids) =>
        DeliveriesRankLow(crypto, me.community, me.node.store, ids, other, Seen(me), out);
      case Deliver(_, events) =>
        WantsRankLow(crypto, me.community, Ascending(Missing(me'.node.known, me'.pending)), other, Seen(me'));
    }
  }

  // ------------------------------------------------------------------ every arrival descends

  lemma CountsDescend(
    rankIn: SyncMessage -> nat, rankOut: SyncMessage -> nat,
    ins: seq<SyncMessage>, outs: seq<SyncMessage>, i: nat, out: seq<SyncMessage>, k: nat)
    requires i < |ins| && rankIn(ins[i]) <= k
    requires forall a :: a in out ==> rankOut(a) < rankIn(ins[i])
    ensures Count(rankIn, Without(ins, i), k) + Count(rankOut, outs + out, k) + (if k == rankIn(ins[i]) then 1 else 0)
            == Count(rankIn, ins, k) + Count(rankOut, outs, k)
  {
    CountLoses(rankIn, ins, i, k);
    CountAdds(rankOut, outs, out, k);
    CountNone(rankOut, out, k);
  }

  lemma FreshShrinks(all: set<Id>, seen: set<Id>, more: set<Id>)
    requires more <= all && !(more <= seen)
    ensures |all - (seen + more)| < |all - seen|
  {
    var x :| x in more && x !in seen;
    SubsetIsNoLarger(all - (seen + more), all - seen - {x});
  }

  lemma DeliveredIsWorldly(u: Events, events: seq<SignedEvent>)
    requires FromWorld(u, events)
    ensures IdsOf(events) <= u.Keys
  {
  }

  lemma FreshDescends(u: Events, net: Net, net': Net, ids: set<Id>)
    requires ids <= u.Keys && !(ids <= Seen(net.left))
    requires Seen(net'.left) == Seen(net.left) + ids && Seen(net'.right) == Seen(net.right)
    ensures Below(MeasureOf(u, net'), MeasureOf(u, net))
  {
    FreshShrinks(u.Keys, Seen(net.left), ids);
  }

  lemma StaleDescends(u: Events, net: Net, net': Net, i: nat, out: seq<SyncMessage>)
    requires i < |net.toLeft|
    requires Seen(net'.left) == Seen(net.left) && net'.right == net.right
    requires net'.toLeft == Without(net.toLeft, i) && net'.toRight == net.toRight + out
    requires RankOf(Seen(net.left), Seen(net.right), net.toLeft[i]) <= 5
    requires forall a :: a in out ==>
               RankOf(Seen(net.right), Seen(net.left), a) < RankOf(Seen(net.left), Seen(net.right), net.toLeft[i])
    ensures Below(MeasureOf(u, net'), MeasureOf(u, net))
  {
    var rankIn, rankOut := Rank(Seen(net.left), Seen(net.right)), Rank(Seen(net.right), Seen(net.left));
    var r := rankIn(net.toLeft[i]);
    forall k: nat | r <= k
      ensures InFlight(net', k) + (if k == r then 1 else 0) == InFlight(net, k)
    {
      CountsDescend(rankIn, rankOut, net.toLeft, net.toRight, i, out, k);
    }
    BelowByRank(Unseen2(u, net), k => InFlight(net, k), k => InFlight(net', k), r);
  }

  lemma StaleTurn(crypto: Crypto, u: Events, net: Net, i: nat, out: seq<SyncMessage>, net': Net)
    requires ArrivesLeft(crypto, net, i, out, net') && Indexed(net.left.node.store)
    requires Seen(net'.left) == Seen(net.left)
    requires net.toLeft[i].Deliver? ==> IdsOf(net.toLeft[i].events) <= Seen(net.left)
    ensures Below(MeasureOf(u, net'), MeasureOf(u, net))
  {
    AnswersRankLower(crypto, net.left, Seen(net.right), net.toLeft[i], net'.left, out);
    StaleDescends(u, net, net', i, out);
  }

  lemma NothingAdded(seen: set<Id>, ids: set<Id>)
    requires ids <= seen
    ensures seen + ids == seen
  {
  }

  lemma TurnDescends(crypto: Crypto, u: Events, net: Net, i: nat, out: seq<SyncMessage>, net': Net, ids: set<Id>)
    requires ArrivesLeft(crypto, net, i, out, net') && Indexed(net.left.node.store)
    requires ids == (if net.toLeft[i].Deliver? then IdsOf(net.toLeft[i].events) else {}) && ids <= u.Keys
    requires Seen(net'.left) == Seen(net.left) + ids
    ensures Below(MeasureOf(u, net'), MeasureOf(u, net))
  {
    if ids <= Seen(net.left) {
      NothingAdded(Seen(net.left), ids);
      StaleTurn(crypto, u, net, i, out, net');
    } else {
      FreshDescends(u, net, net', ids);
    }
  }

  lemma ArrivalDescends(crypto: Crypto, u: Events, community: Id, net: Net, i: nat, out: seq<SyncMessage>, net': Net)
    requires Good(crypto, u, community, net) && ArrivesLeft(crypto, net, i, out, net')
    ensures Below(MeasureOf(u, net'), MeasureOf(u, net))
  {
    assert net.toLeft[i] in net.toLeft;
    ArrivalKeepsGood(crypto, u, community, net, i, out, net');
    var ids := if net.toLeft[i].Deliver? then IdsOf(net.toLeft[i].events) else {};
    if net.toLeft[i].Deliver? {
      DeliveredIsWorldly(u, net.toLeft[i].events);
    }
    TurnDescends(crypto, u, net, i, out, net', ids);
  }

  /** Every arrival, at either peer, descends in the measure. */
  lemma StepDescends(crypto: Crypto, u: Events, community: Id, net: Net, net': Net)
    requires Good(crypto, u, community, net) && NetStep(crypto, net, net')
    ensures Below(MeasureOf(u, net'), MeasureOf(u, net))
  {
    if i: nat, out :| ArrivesLeft(crypto, net, i, out, net') {
      ArrivalDescends(crypto, u, community, net, i, out, net');
    } else {
      var i: nat, out :| ArrivesLeft(crypto, Flip(net), i, out, Flip(net'));
      GoodFlips(crypto, u, community, net);
      ArrivalDescends(crypto, u, community, Flip(net), i, out, Flip(net'));
      MeasureFlips(u, net);
      MeasureFlips(u, net');
    }
  }

  // ------------------------------------------------------------------ no infinite exchange

  lemma {:induction false} RunEndsFrom(
    crypto: Crypto, u: Events, community: Id, run: nat -> Net, n: nat, measure: Measure)
    requires Good(crypto, u, community, run(n)) && measure == MeasureOf(u, run(n))
    ensures exists k :: n <= k && !NetStep(crypto, run(k), run(k + 1))
    decreases measure.unseen, measure.c5, measure.c4, measure.c3, measure.c2, measure.c1, measure.c0
  {
    if NetStep(crypto, run(n), run(n + 1)) {
      StepKeepsGood(crypto, u, community, run(n), run(n + 1));
      StepDescends(crypto, u, community, run(n), run(n + 1));
      RunEndsFrom(crypto, u, community, run, n + 1, MeasureOf(u, run(n + 1)));
    }
  }
}
