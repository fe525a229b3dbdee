/**
 Synchronization requests over the network (crates/sync/src/network.rs:797-854): only authenticated
 peers are answered, Wants must be for one id, and answers must fit a frame.
 */
module NetworkSync {
  import opened Wrappers
  import opened Protocol
  import opened Closure
  import opened SyncMessages
  import opened SyncState
  import opened SyncTheorems
  import opened SyncPeers
  import opened Devices
  import opened Frames
  import opened NetworkNodes

  /** The request is not even looked at. */
  function GateFault(authenticated: set<PeerId>, peer: PeerId, message: SyncMessage): Option<Rejection> {
    if peer !in authenticated then Some(NotAuthenticated)
    else if message.Want? && |message.ids| != 1 then Some(FrameLimit)
    else None
  }

  /**
   The Sync branch of `handle_request`: a request stopped at the gate or refused by the peer changes
   nothing; otherwise the peer answers as specified, and the answer is sent if it fits a frame.
   */
  method HandleSync(crypto: Crypto, network: NetworkNode, sync: SyncPeer, peer: PeerId, message: SyncMessage)
    returns (r: Result<seq<SyncMessage>, Rejection>, ghost out: seq<SyncMessage>)
    requires sync.Valid(crypto) && (message.Deliver? ==> NoClashWith(sync.View(), message.events))
    modifies sync, sync.node
    ensures sync.Valid(crypto) && old(sync.node.known) <= old(sync.node.store).Keys
    ensures peer !in network.state.authenticated ==> r == Err(NotAuthenticated)
    ensures peer in network.state.authenticated && message.Want? && |message.ids| != 1 ==> r == Err(FrameLimit)
    ensures var passes := peer in network.state.authenticated && (message.Want? ==> |message.ids| == 1);
            && (!passes ==> sync.View() == old(sync.View()))
            && (passes && ReceiveFault(crypto, old(sync.View()), message).Some? ==>
                  r == Err(InvalidSync) && sync.View() == old(sync.View()))
            && (passes && ReceiveFault(crypto, old(sync.View()), message).None? ==>
                  && Responds(crypto, old(sync.View()), message, sync.View(), out)
                  && r == if FitsFrame(Normalized(out)) then Ok(Normalized(out)) else Err(FrameLimit))
  {
    out := [];
    GroundedHoldsParents(sync.node.store, sync.node.known);
    var gate := GateFault(network.state.authenticated, peer, message);
    if gate.Some? {
      return Err(gate.value), [];
    }
    var answer := sync.Receive(crypto, message);
    if answer.Err? {
      return Err(InvalidSync), [];
    }
    out := answer.value;
    var normalized := NormalizeMessages(answer.value);
    r := if normalized.Some? then Ok(normalized.value) else Err(FrameLimit);
  }

  /** A Want that passes the gate is never turned down for the size of its answer. */
  lemma WantsAreAnswered(
    crypto: Crypto, authenticated: set<PeerId>, from: PeerId, peer: Peer, message: SyncMessage, peer': Peer,
    out: seq<SyncMessage>)
    requires message.Want? && GateFault(authenticated, from, message).None? && message.community == peer.community
    requires SoundPeer(crypto, peer) && peer.node.known <= peer.node.store.Keys
    requires Responds(crypto, peer, message, peer', out)
    ensures FitsFrame(Normalized(out))
  {
    assert message == Want(peer.community, [message.ids[0]]);
    SingleWantAnswerFits(crypto, peer, message.ids[0], peer', out);
  }

  // ------------------------------------------------------------------ answers to our requests

  datatype AnswerError = Refused(reason: Rejection) | Failed(fault: SyncError)

  /** The peer takes the k-th message and answers `out`, which fits a frame. */
  ghost predicate AnsweredAt(crypto: Crypto, start: Peer, messages: seq<SyncMessage>, k: nat, out: seq<SyncMessage>)
    requires k < |messages|
  {
    var peer := AfterRun(crypto, start, messages[..k]);
    && peer.node.known <= peer.node.store.Keys && ReceiveFault(crypto, peer, messages[k]).None?
    && Responds(crypto, peer, messages[k], AfterRun(crypto, start, messages[..k + 1]), out)
    && FitsFrame(Normalized(out))
  }

  /** The first messages have been taken and answered one by one. */
  ghost predicate Answered(crypto: Crypto, start: Peer, messages: seq<SyncMessage>, outs: seq<seq<SyncMessage>>) {
    |outs| <= |messages| && forall k :: 0 <= k < |outs| ==> AnsweredAt(crypto, start, messages, k, outs[k])
  }

  /** Everything that is sent for these answers. */
  function SentFor(outs: seq<seq<SyncMessage>>): seq<SyncMessage> {
    if outs == [] then [] else SentFor(outs[..|outs| - 1]) + Normalized(outs[|outs| - 1])
  }

  /** Why the message after those answered stops the rest: it is refused, or its answer does not fit. */
  ghost predicate StopsAt(crypto: Crypto, start: Peer, messages: seq<SyncMessage>, n: nat, error: AnswerError)
    requires n < |messages|
  {
    var peer := AfterRun(crypto, start, messages[..n]);
    var fault := ReceiveFault(crypto, peer, messages[n]);
    if fault.Some? then error == Failed(fault.value)
    else
      && error == Refused(FrameLimit) && peer.node.known <= peer.node.store.Keys
      && exists out :: Responds(crypto, peer, messages[n], AfterRun(crypto, start, messages[..n + 1]), out)
                       && !FitsFrame(Normalized(out))
  }

  lemma OneMoreReceived(
    crypto: Crypto, start: Peer, messages: seq<SyncMessage>, k: nat, peer: Peer, peer': Peer, out: seq<SyncMessage>)
    requires k < |messages| && peer == AfterRun(crypto, start, messages[..k])
    requires peer.node.known <= peer.node.store.Keys && ReceiveFault(crypto, peer, messages[k]).None?
    requires Responds(crypto, peer, messages[k], peer', out)
    ensures peer' == AfterRun(crypto, start, messages[..k + 1])
  {
    AfterRunStep(crypto, start, messages, k);
    RespondsIsPeerAfter(crypto, peer, messages[k], peer', out);
  }

  lemma RefusedIsUnchanged(crypto: Crypto, start: Peer, messages: seq<SyncMessage>, k: nat)
    requires k < |messages| && ReceiveFault(crypto, AfterRun(crypto, start, messages[..k]), messages[k]).Some?
    ensures AfterRun(crypto, start, messages[..k + 1]) == AfterRun(crypto, start, messages[..k])
  {
    AfterRunStep(crypto, start, messages, k);
  }

  lemma NextDoesNotClash(crypto: Crypto, start: Peer, messages: seq<SyncMessage>, k: nat)
    requires k < |messages| && Unclashing(crypto, start, messages)
    ensures messages[k].Deliver? ==> NoClashWith(AfterRun(crypto, start, messages[..k]), messages[k].events)
  {
    UnclashingPrefix(crypto, start, messages, k + 1);
    assert messages[..k + 1][..k] == messages[..k];
  }

  /** Takes the next message; the state it leaves stands even if its answer does not fit. */
  method TakeNext(
    crypto: Crypto, ghost start: Peer, sync: SyncPeer, messages: seq<SyncMessage>, k: nat)
    returns (r: Result<seq<SyncMessage>, AnswerError>, ghost out: seq<SyncMessage>)
    requires k < |messages| && sync.Valid(crypto) && Unclashing(crypto, start, messages)
    requires sync.View() == AfterRun(crypto, start, messages[..k])
    modifies sync, sync.node
    ensures sync.Valid(crypto) && sync.View() == AfterRun(crypto, start, messages[..k + 1])
    ensures r.Ok? ==> AnsweredAt(crypto, start, messages, k, out) && r.value == Normalized(out)
    ensures r.Err? ==> StopsAt(crypto, start, messages, k, r.error)
  {
    out := [];
    NextDoesNotClash(crypto, start, messages, k);
    ghost var before := sync.View();
    var answer := sync.Receive(crypto, messages[k]);
    if answer.Err? {
      RefusedIsUnchanged(crypto, start, messages, k);
      return Err(Failed(answer.error)), [];
    }
    out := answer.value;
    OneMoreReceived(crypto, start, messages, k, before, sync.View(), out);
    var normalized := NormalizeMessages(answer.value);
    r := if normalized.Some? then Ok(normalized.value) else Err(Refused(FrameLimit));
  }

  /** The answer is not even looked at. */
  function AnswerGate(authenticated: set<PeerId>, peer: PeerId, messages: seq<SyncMessage>): Option<Rejection> {
    if peer !in authenticated then Some(NotAuthenticated)
    else if |messages| > MAX_MESSAGES_PER_FRAME then Some(FrameLimit)
    else None
  }

  /**
   The Sync branch of `handle_response`: an answer of an unauthenticated peer or with more than 64
   messages is refused. Otherwise the messages are taken in order; the first that is refused, or whose
   answer does not fit a frame, stops the rest, and the messages before it stay applied and answered.
   */
  method HandleSyncAnswer(
    crypto: Crypto, network: NetworkNode, sync: SyncPeer, peer: PeerId, messages: seq<SyncMessage>)
    returns (r: Result<(), AnswerError>, sent: seq<SyncMessage>, ghost outs: seq<seq<SyncMessage>>)
    requires sync.Valid(crypto) && Unclashing(crypto, sync.View(), messages)
    modifies sync, sync.node
    ensures sync.Valid(crypto)
    ensures peer !in network.state.authenticated ==> r == Err(Refused(NotAuthenticated))
    ensures peer in network.state.authenticated && |messages| > 64 ==> r == Err(Refused(FrameLimit))
    ensures var passes := peer in network.state.authenticated && |messages| <= 64;
            && (!passes ==> sent == [] && sync.View() == old(sync.View()))
            && (passes ==> Ended(crypto, old(sync.View()), messages, sync.View(), r, outs, sent))
  {
    var gate := AnswerGate(network.state.authenticated, peer, messages);
    if gate.Some? {
      return Err(Refused(gate.value)), [], [];
    }
    r, sent, outs := TakeAll(crypto, sync, messages);
  }

  /** The first `k` messages are taken, answered and sent for. */
  ghost predicate Underway(
    crypto: Crypto, start: Peer, messages: seq<SyncMessage>, k: nat, peer: Peer, outs: seq<seq<SyncMessage>>,
    sent: seq<SyncMessage>)
  {
    && k <= |messages| && peer == AfterRun(crypto, start, messages[..k])
    && |outs| == k && Answered(crypto, start, messages, outs) && sent == SentFor(outs)
  }

  /** All messages were taken, or the rest was stopped. */
  ghost predicate Ended(
    crypto: Crypto, start: Peer, messages: seq<SyncMessage>, peer: Peer, r: Result<(), AnswerError>,
    outs: seq<seq<SyncMessage>>, sent: seq<SyncMessage>)
  {
    && sent == SentFor(outs) && Answered(crypto, start, messages, outs)
    && (r.Ok? ==> |outs| == |messages| && peer == AfterRun(crypto, start, messages))
    && (r.Err? ==>
          && |outs| < |messages| && StopsAt(crypto, start, messages, |outs|, r.error)
          && peer == AfterRun(crypto, start, messages[..|outs| + 1]))
  }

  lemma BeginsUnderway(crypto: Crypto, start: Peer, messages: seq<SyncMessage>)
    ensures Underway(crypto, start, messages, 0, start, [], [])
  {
    assert messages[..0] == [];
  }

  lemma UnderwayGrows(
    crypto: Crypto, start: Peer, messages: seq<SyncMessage>, k: nat, peer: Peer, outs: seq<seq<SyncMessage>>,
    sent: seq<SyncMessage>, out: seq<SyncMessage>, peer': Peer)
    requires Underway(crypto, start, messages, k, peer, outs, sent) && k < |messages|
    requires AnsweredAt(crypto, start, messages, k, out) && peer' == AfterRun(crypto, start, messages[..k + 1])
    ensures Underway(crypto, start, messages, k + 1, peer', outs + [out], sent + Normalized(out))
  {
    SentOneMore(outs, out);
    AnsweredGrows(crypto, start, messages, outs, out);
  }

  lemma AnsweredGrows(
    crypto: Crypto, start: Peer, messages: seq<SyncMessage>, outs: seq<seq<SyncMessage>>, out: seq<SyncMessage>)
    requires Answered(crypto, start, messages, outs) && |outs| < |messages|
    requires AnsweredAt(crypto, start, messages, |outs|, out)
    ensures Answered(crypto, start, messages, outs + [out])
  {
    AllGrow((k: nat, o: seq<SyncMessage>) => k < |messages| && AnsweredAt(crypto, start, messages, k, o), outs, out);
  }

  lemma AllGrow(holds: (nat, seq<SyncMessage>) -> bool, outs: seq<seq<SyncMessage>>, out: seq<SyncMessage>)
    requires forall k: nat :: k < |outs| ==> holds(k, outs[k])
    requires holds(|outs|, out)
    ensures forall k: nat :: k < |outs| + 1 ==> holds(k, (outs + [out])[k])
  {
  }

  lemma EndsWell(
    crypto: Crypto, start: Peer, messages: seq<SyncMessage>, peer: Peer, outs: seq<seq<SyncMessage>>,
    sent: seq<SyncMessage>)
    requires Underway(crypto, start, messages, |messages|, peer, outs, sent)
    ensures Ended(crypto, start, messages, peer, Ok(()), outs, sent)
  {
    assert messages[..|messages|] == messages;
  }

  lemma EndsEarly(
    crypto: Crypto, start: Peer, messages: seq<SyncMessage>, k: nat, peer: Peer, outs: seq<seq<SyncMessage>>,
    sent: seq<SyncMessage>, peer': Peer, error: AnswerError)
    requires Underway(crypto, start, messages, k, peer, outs, sent) && k < |messages|
    requires StopsAt(crypto, start, messages, k, error) && peer' == AfterRun(crypto, start, messages[..k + 1])
    ensures Ended(crypto, start, messages, peer', Err(error), outs, sent)
  {
  }

  /** Takes the next message and records its answer. */
  method TakeAndRecord(
    crypto: Crypto, ghost start: Peer, sync: SyncPeer, messages: seq<SyncMessage>, k: nat, sent: seq<SyncMessage>,
    ghost outs: seq<seq<SyncMessage>>)
    returns (error: Option<AnswerError>, sent': seq<SyncMessage>, ghost outs': seq<seq<SyncMessage>>)
    requires k < |messages| && sync.Valid(crypto) && Unclashing(crypto, start, messages)
    requires Underway(crypto, start, messages, k, sync.View(), outs, sent)
    modifies sync, sync.node
    ensures sync.Valid(crypto)
    ensures error.None? ==> Underway(crypto, start, messages, k + 1, sync.View(), outs', sent')
    ensures error.Some? ==> Ended(crypto, start, messages, sync.View(), Err(error.value), outs', sent')
  {
    ghost var before := sync.View();
    var taken;
    ghost var out;
    taken, out := TakeNext(crypto, start, sync, messages, k);
    if taken.Err? {
      EndsEarly(crypto, start, messages, k, before, outs, sent, sync.View(), taken.error);
      return Some(taken.error), sent, outs;
    }
    UnderwayGrows(crypto, start, messages, k, before, outs, sent, out, sync.View());
    return None, sent + taken.value, outs + [out];
  }

  /** Takes the messages in order until one stops the rest. */
  method TakeAll(crypto: Crypto, sync: SyncPeer, messages: seq<SyncMessage>)
    returns (r: Result<(), AnswerError>, sent: seq<SyncMessage>, ghost outs: seq<seq<SyncMessage>>)
    requires sync.Valid(crypto) && Unclashing(crypto, sync.View(), messages)
    modifies sync, sync.node
    ensures sync.Valid(crypto) && Ended(crypto, old(sync.View()), messages, sync.View(), r, outs, sent)
  {
    ghost var start := sync.View();
    sent, outs := [], [];
    BeginsUnderway(crypto, start, messages);
    for k := 0 to |messages|
      invariant sync.Valid(crypto) && Underway(crypto, start, messages, k, sync.View(), outs, sent)
    {
      var error;
      error, sent, outs := TakeAndRecord(crypto, start, sync, messages, k, sent, outs);
      if error.Some? {
        return Err(error.value), sent, outs;
      }
    }
    EndsWell(crypto, start, messages, sync.View(), outs, sent);
    return Ok(()), sent, outs;
  }

  lemma SentOneMore(outs: seq<seq<SyncMessage>>, out: seq<SyncMessage>)
    ensures SentFor(outs + [out]) == SentFor(outs) + Normalized(out)
  {
    assert (outs + [out])[..|outs|] == outs;
  }
}
