/**
 Fitting synchronization answers into network frames (crates/sync/src/network.rs:1239-1266): Wants are
 split into single-id Wants, and a frame holds at most 64 messages and 1 MiB.
 */
module Frames {
  import opened Wrappers
  import opened Protocol
  import opened Ordering
  import opened Closure
  import opened Node
  import opened SyncMessages
  import opened SyncState
  import Packing
  import Json

  const MAX_MESSAGES_PER_FRAME := 64

  function MessageItemsJson(messages: seq<SyncMessage>): nat {
    if messages == [] then 0
    else MessageJson(messages[0]) + (if |messages| > 1 then 1 else 0) + MessageItemsJson(messages[1..])
  }

  /** Length of {"Sync":{"messages":[..]}}. */
  function FrameJson(messages: seq<SyncMessage>): nat {
    20 + 2 + MessageItemsJson(messages) + 2
  }

  /** One Want per id; other messages as they are. */
  function Singles(m: SyncMessage): (r: seq<SyncMessage>) {
    if m.Want? then seq(|m.ids|, i requires 0 <= i < |m.ids| => Want(m.community, [m.ids[i]])) else [m]
  }

  function Normalized(messages: seq<SyncMessage>): seq<SyncMessage> {
    if messages == [] then []
    else Normalized(messages[..|messages| - 1]) + Singles(messages[|messages| - 1])
  }

  predicate FitsFrame(messages: seq<SyncMessage>) {
    |messages| <= MAX_MESSAGES_PER_FRAME && FrameJson(messages) <= Json.MAX_NETWORK_FRAME_BYTES
  }

  /** `normalize_messages`: splits Wants, and fails exactly when the result does not fit a frame. */
  method NormalizeMessages(messages: seq<SyncMessage>) returns (r: Option<seq<SyncMessage>>)
    ensures r.Some? <==> FitsFrame(Normalized(messages))
    ensures r.Some? ==> r.value == Normalized(messages)
  {
    var normalized: seq<SyncMessage> := [];
    for k := 0 to |messages|
      invariant normalized == Normalized(messages[..k])
    {
      assert messages[..k + 1][..k] == messages[..k];
      normalized := normalized + Singles(messages[k]);
    }
    assert messages[..|messages|] == messages;
    if |normalized| > MAX_MESSAGES_PER_FRAME || FrameJson(normalized) > Json.MAX_NETWORK_FRAME_BYTES {
      return None;
    }
    return Some(normalized);
  }

  // ------------------------------------------------------------------ nothing is lost

  /** The ids asked for, in order. */
  function AskedFor(messages: seq<SyncMessage>): seq<Id> {
    if messages == [] then []
    else AskedFor(messages[..|messages| - 1]) + Asks(messages[|messages| - 1])
  }

  function Asks(m: SyncMessage): seq<Id> {
    if m.Want? then m.ids else []
  }

  /** The messages that are no Wants, in order. */
  function Others(messages: seq<SyncMessage>): seq<SyncMessage> {
    if messages == [] then []
    else Others(messages[..|messages| - 1]) + if messages[|messages| - 1].Want? then [] else [messages[|messages| - 1]]
  }

  lemma {:induction false} AskedJoins(a: seq<SyncMessage>, b: seq<SyncMessage>)
    ensures AskedFor(a + b) == AskedFor(a) + AskedFor(b)
    decreases |b|
  {
    if b == [] {
      assert a + b == a;
    } else {
      var init, last := b[..|b| - 1], b[|b| - 1];
      assert (a + b)[..|a + b| - 1] == a + init;
      AskedJoins(a, init);
      assert AskedFor(a) + AskedFor(init) + Asks(last) == AskedFor(a) + (AskedFor(init) + Asks(last));
    }
  }

  lemma {:induction false} OthersJoin(a: seq<SyncMessage>, b: seq<SyncMessage>)
    ensures Others(a + b) == Others(a) + Others(b)
    decreases |b|
  {
    if b == [] {
      assert a + b == a;
    } else {
      var init, last := b[..|b| - 1], b[|b| - 1];
      assert (a + b)[..|a + b| - 1] == a + init;
      OthersJoin(a, init);
    }
  }

  lemma OfOne(m: SyncMessage)
    ensures AskedFor([m]) == Asks(m) && Others([m]) == if m.Want? then [] else [m]
  {
    assert [m][..0] == [];
    assert [] + Asks(m) == Asks(m);
  }

  lemma SinglesGrow(community: Id, ids: seq<Id>)
    requires ids != []
    ensures Singles(Want(community, ids))
            == Singles(Want(community, ids[..|ids| - 1])) + [Want(community, [ids[|ids| - 1]])]
  {
  }

  lemma JoinOne(a: seq<SyncMessage>, community: Id, id: Id)
    ensures AskedFor(a + [Want(community, [id])]) == AskedFor(a) + [id]
    ensures Others(a + [Want(community, [id])]) == Others(a)
  {
    AskedJoins(a, [Want(community, [id])]);
    OthersJoin(a, [Want(community, [id])]);
    OfOne(Want(community, [id]));
  }

  lemma {:induction false} SinglesOfWant(community: Id, ids: seq<Id>)
    ensures AskedFor(Singles(Want(community, ids))) == ids && Others(Singles(Want(community, ids))) == []
    decreases |ids|
  {
    if ids != [] {
      var init, last := ids[..|ids| - 1], ids[|ids| - 1];
      SinglesOfWant(community, init);
      SinglesGrow(community, ids);
      JoinOne(Singles(Want(community, init)), community, last);
      assert ids == init + [last];
    }
  }

  /** Splitting asks for the same ids in the same order and keeps the other messages. */
  lemma {:induction false} NormalizingLosesNothing(messages: seq<SyncMessage>)
    ensures AskedFor(Normalized(messages)) == AskedFor(messages)
    ensures Others(Normalized(messages)) == Others(messages)
    decreases |messages|
  {
    if messages != [] {
      var init, last := messages[..|messages| - 1], messages[|messages| - 1];
      NormalizingLosesNothing(init);
      AskedJoins(Normalized(init), Singles(last));
      OthersJoin(Normalized(init), Singles(last));
      if last.Want? {
        SinglesOfWant(last.community, last.ids);
      } else {
        OfOne(last);
      }
    }
  }

  /** So a frame is refused for its count exactly when more than 64 ids and other messages are due. */
  lemma {:induction false} NormalizedLength(messages: seq<SyncMessage>)
    ensures |Normalized(messages)| == |AskedFor(messages)| + |Others(messages)|
    decreases |messages|
  {
    if messages != [] {
      NormalizedLength(messages[..|messages| - 1]);
    }
  }

  /** What is sent passes the receiver's checks: valid messages, and every Want for one id. */
  lemma {:induction false} NormalizedIsAdmissible(crypto: Crypto, messages: seq<SyncMessage>)
    requires forall m :: m in messages ==> ValidMessage(crypto, m)
    ensures forall m :: m in Normalized(messages) ==> ValidMessage(crypto, m) && (m.Want? ==> |m.ids| == 1)
    decreases |messages|
  {
    if messages != [] {
      var init, last := messages[..|messages| - 1], messages[|messages| - 1];
      NormalizedIsAdmissible(crypto, init);
      assert last in messages;
      forall m | m in Singles(last)
        ensures ValidMessage(crypto, m) && (m.Want? ==> |m.ids| == 1)
      {
        SingleIsAdmissible(crypto, last, m);
      }
    }
  }

  lemma SingleIsAdmissible(crypto: Crypto, whole: SyncMessage, m: SyncMessage)
    requires ValidMessage(crypto, whole) && m in Singles(whole)
    ensures ValidMessage(crypto, m) && (m.Want? ==> |m.ids| == 1)
  {
    if whole.Want? {
      var i :| 0 <= i < |whole.ids| && m == Want(whole.community, [whole.ids[i]]);
      IdMessagesAreValid(crypto, whole.community, [whole.ids[i]]);
    }
  }

  // ------------------------------------------------------------------ single-id Wants always fit

  lemma OnlyPiece(batches: seq<seq<SignedEvent>>, e: SignedEvent)
    requires Flatten(batches) == [e] && forall i :: 0 <= i < |batches| ==> batches[i] != []
    ensures batches == [[e]]
  {
    assert batches[0] + Flatten(batches[1..]) == [e];
    assert batches[0] == [e];
    if |batches| > 1 {
      MoreThanOne(batches[1..]);
    }
  }

  lemma MoreThanOne(batches: seq<seq<SignedEvent>>)
    requires batches != [] && batches[0] != []
    ensures Flatten(batches) != []
  {
  }

  /** A sound peer answers a Want for one id with at most one message, which fits a frame. */
  lemma SingleWantAnswerFits(crypto: Crypto, peer: Peer, id: Id, peer': Peer, out: seq<SyncMessage>)
    requires SoundPeer(crypto, peer) && peer.node.known <= peer.node.store.Keys
    requires Responds(crypto, peer, Want(peer.community, [id]), peer', out)
    ensures FitsFrame(Normalized(out))
  {
    var events := StoredEvents(peer.node.store, [id]);
    if events == [] {
      assert FrameJson([]) == 24;
    } else {
      OneStored(peer.node.store, id);
      PackedAlone(crypto, peer.community, events[0], out);
      AloneFits(crypto, peer.community, events[0]);
    }
  }

  lemma OneStored(store: Events, id: Id)
    requires StoredEvents(store, [id]) != []
    ensures id in store && StoredEvents(store, [id]) == [store[id]]
  {
    assert [id][1..] == [];
    assert StoredEvents(store, [id]) == (if id in store then [store[id]] else []) + StoredEvents(store, []);
  }

  lemma PackedAlone(crypto: Crypto, community: Id, e: SignedEvent, out: seq<SyncMessage>)
    requires PackedAs(crypto, community, [e], out)
    ensures out == [Deliver(community, [e])]
  {
    var batches :| Packing.PackedAs(Fits(crypto, community), Full(community), [e], batches)
                   && out == Deliveries(community, batches);
    forall i | 0 <= i < |batches|
      ensures batches[i] != []
    {
      assert Fits(crypto, community)(batches[i]);
    }
    OnlyPiece(batches, e);
  }

  lemma AloneFits(crypto: Crypto, community: Id, e: SignedEvent)
    requires ValidEvent(crypto, e)
    ensures FitsFrame(Normalized([Deliver(community, [e])]))
  {
    var m := Deliver(community, [e]);
    SingleEventIsValid(crypto, community, e);
    assert [m][..0] == [];
    assert Normalized([m]) == Normalized([m][..0]) + Singles(m);
    assert Normalized([m]) == [m];
    assert [m][1..] == [];
    assert MessageItemsJson([m]) == MessageJson(m) + MessageItemsJson([m][1..]);
  }
}
