/**
 The resolver's algorithm: index and decode the candidates, then decide the ready ones round by
 round in priority and Event ID order, and reject whatever never becomes ready.
 */
module ResolveRounds {
  import opened Wrappers
  import opened Protocol
  import opened Ordering
  import opened Chat
  import opened Causality
  import opened DecisionOrder
  import opened Resolver

  /** The single assumption about BLAKE3: among these events, equal ids mean equal events. */
  ghost predicate NoCollisions(events: seq<SignedEvent>) {
    forall e, f :: e in events && f in events && e.id == f.id ==> e == f
  }

  /** The candidate set of a list: order and duplicates do not matter. */
  ghost function Index(events: seq<SignedEvent>): (candidates: Candidates)
    requires NoCollisions(events)
    ensures Indexed(candidates)
    ensures forall x :: x in candidates <==> exists e :: e in events && e.id == x
    ensures forall e :: e in events ==> e.id in candidates && candidates[e.id] == e
  {
    map e | e in events :: e.id := e
  }

  // ------------------------------------------------------------------ indexing

  /** The tables built from the candidates before any decision. */
  ghost predicate Prepared(
    profile: Profile, byId: Candidates, payloads: map<Id, ChatPayload>, authors: map<Id, Id>)
  {
    && Indexed(byId)
    && payloads.Keys == GraphOf(profile, byId).Keys
    && authors.Keys == byId.Keys
    && (forall x :: x in payloads ==> Decode(profile, byId[x]) == Some(payloads[x]))
    && (forall x :: x in byId ==> authors[x] == AuthorId(profile.crypto, byId[x]))
  }

  ghost predicate OnlyUndecodable(profile: Profile, byId: Candidates, rejected: map<Id, RejectionReason>) {
    && (forall x :: x in rejected <==> x in byId && x !in GraphOf(profile, byId))
    && (forall x :: x in rejected ==> rejected[x] == InvalidPayload)
  }

  ghost predicate Covers(byId: Candidates, events: seq<SignedEvent>) {
    && (forall e :: e in events ==> e.id in byId && byId[e.id] == e)
    && (forall x :: x in byId ==> byId[x] in events && byId[x].id == x)
  }

  lemma GraphGrows(profile: Profile, byId: Candidates, event: SignedEvent)
    requires event.id in byId ==> byId[event.id] == event
    ensures event.id in byId ==> byId[event.id := event] == byId
    ensures GraphOf(profile, byId[event.id := event]).Keys
            == GraphOf(profile, byId).Keys + if Decode(profile, event).Some? then {event.id} else {}
  {
  }

  lemma PreparedGrows(
    profile: Profile, byId: Candidates, payloads: map<Id, ChatPayload>, authors: map<Id, Id>, event: SignedEvent)
    requires Prepared(profile, byId, payloads, authors)
    requires event.id in byId ==> byId[event.id] == event
    ensures event.id in byId ==> byId[event.id := event] == byId
    ensures Prepared(
      profile, byId[event.id := event],
      match Decode(profile, event) { case Some(payload) => payloads[event.id := payload] case None => payloads },
      authors[event.id := AuthorId(profile.crypto, event)])
  {
    GraphGrows(profile, byId, event);
  }

  lemma UndecodableGrows(
    profile: Profile, byId: Candidates, rejected: map<Id, RejectionReason>, event: SignedEvent)
    requires OnlyUndecodable(profile, byId, rejected)
    requires event.id in byId ==> byId[event.id] == event
    ensures OnlyUndecodable(
      profile, byId[event.id := event],
      if Decode(profile, event).Some? then rejected else rejected[event.id := InvalidPayload])
  {
    GraphGrows(profile, byId, event);
  }

  /** Files one valid event; a repeated event changes nothing. */
  method File(
    profile: Profile, event: SignedEvent, byId: Candidates, payloads: map<Id, ChatPayload>,
    authors: map<Id, Id>, rejected: map<Id, RejectionReason>)
    returns (byId': Candidates, payloads': map<Id, ChatPayload>, authors': map<Id, Id>,
             rejected': map<Id, RejectionReason>)
    requires Prepared(profile, byId, payloads, authors) && OnlyUndecodable(profile, byId, rejected)
    requires event.id in byId ==> byId[event.id] == event
    ensures byId' == byId[event.id := event]
    ensures Prepared(profile, byId', payloads', authors') && OnlyUndecodable(profile, byId', rejected')
  {
    byId', payloads', rejected' := byId, payloads, rejected;
    PreparedGrows(profile, byId, payloads, authors, event);
    UndecodableGrows(profile, byId, rejected, event);
    authors' := authors[event.id := AuthorId(profile.crypto, event)];
    if event.id !in byId {
      byId' := byId[event.id := event];
    }
    match Decode(profile, event) {
      case Some(payload) => payloads' := payloads[event.id := payload];
      case None => rejected' := rejected[event.id := InvalidPayload];
    }
  }

  lemma CoversNext(byId: Candidates, events: seq<SignedEvent>, i: nat)
    requires NoCollisions(events) && i < |events| && Covers(byId, events[..i])
    ensures events[i].id in byId ==> byId[events[i].id] == events[i]
    ensures Covers(byId[events[i].id := events[i]], events[..i + 1])
  {
    var event := events[i];
    assert events[..i + 1] == events[..i] + [event];
    if event.id in byId {
      var other := byId[event.id];
      assert other in events[..i] && other in events && event in events;
      assert other.id == event.id;
    }
  }

  /** The first `i` events have been filed. */
  ghost predicate FiledUpTo(
    profile: Profile, events: seq<SignedEvent>, i: nat, byId: Candidates, payloads: map<Id, ChatPayload>,
    authors: map<Id, Id>, rejected: map<Id, RejectionReason>)
  {
    && i <= |events| && Covers(byId, events[..i]) && FirstFault(profile.crypto, events[..i]).None?
    && Prepared(profile, byId, payloads, authors) && OnlyUndecodable(profile, byId, rejected)
  }

  /** The next event is the first with a fault, or there is none up to it. */
  lemma NextFault(crypto: Crypto, events: seq<SignedEvent>, i: nat)
    requires i < |events| && FirstFault(crypto, events[..i]).None?
    ensures EventFault(crypto, events[i]).Some? ==> FirstFault(crypto, events) == EventFault(crypto, events[i])
    ensures EventFault(crypto, events[i]).None? ==> FirstFault(crypto, events[..i + 1]).None?
  {
    forall j | 0 <= j < i
      ensures ValidEvent(crypto, events[j])
    {
      assert events[j] in events[..i];
    }
    if EventFault(crypto, events[i]).Some? {
      FirstFaultIsAt(crypto, events, i);
    } else {
      assert events[..i + 1] == events[..i] + [events[i]];
    }
  }

  method FileNext(
    profile: Profile, events: seq<SignedEvent>, i: nat, byId: Candidates, payloads: map<Id, ChatPayload>,
    authors: map<Id, Id>, rejected: map<Id, RejectionReason>)
    returns (byId': Candidates, payloads': map<Id, ChatPayload>, authors': map<Id, Id>,
             rejected': map<Id, RejectionReason>)
    requires NoCollisions(events) && i < |events| && FirstFault(profile.crypto, events[..i + 1]).None?
    requires FiledUpTo(profile, events, i, byId, payloads, authors, rejected)
    ensures FiledUpTo(profile, events, i + 1, byId', payloads', authors', rejected')
  {
    CoversNext(byId, events, i);
    byId', payloads', authors', rejected' := File(profile, events[i], byId, payloads, authors, rejected);
  }

  /** Validates and files every event, stopping at the first that fails. */
  method Prepare(profile: Profile, events: seq<SignedEvent>)
    returns (fault: Option<ProtocolError>, byId: Candidates, payloads: map<Id, ChatPayload>,
             authors: map<Id, Id>, rejected: map<Id, RejectionReason>)
    requires NoCollisions(events)
    ensures fault == FirstFault(profile.crypto, events)
    ensures fault.None? ==> Covers(byId, events) && Prepared(profile, byId, payloads, authors)
                            && OnlyUndecodable(profile, byId, rejected)
  {
    fault, byId, payloads, authors, rejected := None, map[], map[], map[], map[];
    for i := 0 to |events|
      invariant fault.None? && FiledUpTo(profile, events, i, byId, payloads, authors, rejected)
    {
      fault := EventFault(profile.crypto, events[i]);
      NextFault(profile.crypto, events, i);
      if fault.Some? {
        return;
      }
      byId, payloads, authors, rejected := FileNext(profile, events, i, byId, payloads, authors, rejected);
    }
    assert events[..|events|] == events;
  }

  lemma CoversIsIndex(byId: Candidates, events: seq<SignedEvent>)
    requires NoCollisions(events) && Covers(byId, events)
    ensures byId == Index(events)
  {
    var index := Index(events);
    assert forall x :: x in byId ==> x in index && index[x] == byId[x];
    assert forall x :: x in index ==> x in byId;
  }

  // ------------------------------------------------------------------ one round

  /** The ready ids sorted by priority, then Event ID. */
  function ReadyOrder(payloads: map<Id, ChatPayload>, ready: set<Id>): seq<Id>
    requires ready <= payloads.Keys
  {
    Ascending(OfPriority(payloads, ready, 0))
    + Ascending(OfPriority(payloads, ready, 1))
    + Ascending(OfPriority(payloads, ready, 2))
  }

  function OfPriority(payloads: map<Id, ChatPayload>, ready: set<Id>, p: nat): set<Id>
    requires ready <= payloads.Keys
  {
    set x | x in ready && Priority(payloads[x]) == p
  }

  /** If the ready ids all have one depth, the order is the key order. */
  lemma ReadyOrderIsSorted(payloads: map<Id, ChatPayload>, ready: set<Id>, keys: Keys, depth: nat)
    requires ready <= payloads.Keys && ready <= keys.Keys
    requires forall x :: x in ready ==> keys[x] == Key(depth, Priority(payloads[x]), x)
    ensures SortedByKey(keys, ReadyOrder(payloads, ready))
    ensures Elements(ReadyOrder(payloads, ready)) == ready
  {
    var r0, r1, r2 := OfPriority(payloads, ready, 0), OfPriority(payloads, ready, 1), OfPriority(payloads, ready, 2);
    assert ready == r0 + r1 + r2;
    AscendingIsSorted(keys, r0, depth, 0);
    AscendingIsSorted(keys, r1, depth, 1);
    AscendingIsSorted(keys, r2, depth, 2);
    JoinThree(keys, r0, Ascending(r0), r1, Ascending(r1), r2, Ascending(r2), depth);
  }

  /** The candidates decided before round `depth`. */
  ghost function Earlier(profile: Profile, byId: Candidates, depth: nat): set<Id> {
    set x | x in DecisionKeys(profile, byId) && DecisionKeys(profile, byId)[x].depth < depth
  }

  /** `order` lists exactly the candidates of depth `depth`, in key order. */
  ghost predicate RoundOrder(profile: Profile, byId: Candidates, order: seq<Id>, depth: nat) {
    && SortedByKey(DecisionKeys(profile, byId), order)
    && (forall i :: 0 <= i < |order| ==> DecisionKeys(profile, byId)[order[i]].depth == depth)
    && (forall x :: x in DecisionKeys(profile, byId) && DecisionKeys(profile, byId)[x].depth == depth ==> x in order)
  }

  lemma NextInRound(profile: Profile, byId: Candidates, order: seq<Id>, depth: nat, j: nat)
    requires RoundOrder(profile, byId, order, depth) && j < |order|
    ensures var decided := Earlier(profile, byId, depth) + Elements(order[..j]);
            && ComesNext(DecisionKeys(profile, byId), decided, order[j])
            && order[j] in byId
            && ParentsDecided(profile, byId, decided, order[j])
  {
    var keys, x := DecisionKeys(profile, byId), order[j];
    var decided := Earlier(profile, byId, depth) + Elements(order[..j]);
    forall d | d in decided
      ensures d in keys && Less(keys[d], keys[x])
    {
      if d in Elements(order[..j]) {
        var i :| 0 <= i < j && order[..j][i] == d;
        assert Less(keys[order[i]], keys[order[j]]);
      }
    }
    var g := GraphOf(profile, byId);
    forall p | p in Parents(byId[x]) && p in g
      ensures p in decided
    {
      ParentsComeFirst(g, x, p);
    }
  }

  lemma RoundEnds(profile: Profile, byId: Candidates, order: seq<Id>, depth: nat)
    requires RoundOrder(profile, byId, order, depth)
    ensures Earlier(profile, byId, depth) + Elements(order) == Earlier(profile, byId, depth + 1)
  {
    var keys := DecisionKeys(profile, byId);
    assert forall x :: x in Elements(order) ==> x in keys && keys[x].depth == depth;
    assert forall x :: x in keys && keys[x].depth == depth ==> x in Elements(order);
  }

  lemma ExtendState(profile: Profile, byId: Candidates, accepted: seq<Id>, x: Id)
    requires AllCandidates(byId, accepted) && x in byId && Decode(profile, byId[x]).Some?
    ensures AllCandidates(byId, accepted + [x])
    ensures StateAfter(profile, Log(byId, accepted + [x]))
            == Applied(profile, StateAfter(profile, Log(byId, accepted)), byId[x],
                       Decode(profile, byId[x]).value, AuthorId(profile.crypto, byId[x]))
  {
    var log := Log(byId, accepted + [x]);
    assert log[..|log| - 1] == Log(byId, accepted);
  }

  /** Everything decided so far is decided as it should be, and the live state is the state it leads to. */
  ghost predicate Underway(
    profile: Profile, byId: Candidates, accepted: seq<Id>, rejected: map<Id, RejectionReason>,
    decided: set<Id>, state: State)
  {
    && InProgress(profile, byId, accepted, rejected, decided)
    && AllCandidates(byId, accepted)
    && state == StateAfter(profile, Log(byId, accepted))
  }

  /** Decides one candidate: missing parent, rejected parent, or the verdict of the current state. */
  method DecideCandidate(
    profile: Profile, byId: Candidates, payloads: map<Id, ChatPayload>, authors: map<Id, Id>, x: Id,
    state: LiveState, accepted: seq<Id>, rejected: map<Id, RejectionReason>, ghost decided: set<Id>)
    returns (accepted': seq<Id>, rejected': map<Id, RejectionReason>)
    requires Prepared(profile, byId, payloads, authors) && x in payloads
    requires Underway(profile, byId, accepted, rejected, decided, state.View())
    requires ComesNext(DecisionKeys(profile, byId), decided, x) && ParentsDecided(profile, byId, decided, x)
    modifies state
    ensures Underway(profile, byId, accepted', rejected', decided + {x}, state.View())
  {
    accepted', rejected' := accepted, rejected;
    VerdictIsRule(profile, byId, accepted, rejected, decided, x);
    var verdict := Verdict(
      profile, byId, state.View(), Elements(accepted), rejected.Keys, payloads[x], authors[x], x);
    match verdict {
      case None =>
        AcceptNext(profile, byId, accepted, rejected, decided, x);
        ExtendState(profile, byId, accepted, x);
        state.Apply(profile, byId[x], payloads[x], authors[x]);
        accepted' := accepted + [x];
      case Some(reason) =>
        RejectNext(profile, byId, accepted, rejected, decided, x, reason);
        rejected' := rejected[x := reason];
    }
  }

  /** Decides the ready candidates of one round in order. */
  method DecideRound(
    profile: Profile, byId: Candidates, payloads: map<Id, ChatPayload>, authors: map<Id, Id>,
    order: seq<Id>, state: LiveState, accepted: seq<Id>, rejected: map<Id, RejectionReason>,
    ghost depth: nat)
    returns (accepted': seq<Id>, rejected': map<Id, RejectionReason>)
    requires Prepared(profile, byId, payloads, authors) && Elements(order) <= payloads.Keys
    requires Underway(profile, byId, accepted, rejected, Earlier(profile, byId, depth), state.View())
    requires RoundOrder(profile, byId, order, depth)
    modifies state
    ensures Underway(profile, byId, accepted', rejected', Earlier(profile, byId, depth + 1), state.View())
  {
    accepted', rejected' := accepted, rejected;
    ghost var earlier := Earlier(profile, byId, depth);
    ghost var decided := earlier;
    assert decided == earlier + Elements(order[..0]);
    for j := 0 to |order|
      invariant decided == earlier + Elements(order[..j])
      invariant Underway(profile, byId, accepted', rejected', decided, state.View())
    {
      NextInRound(profile, byId, order, depth, j);
      assert order[j] in Elements(order);
      accepted', rejected' := DecideCandidate(
        profile, byId, payloads, authors, order[j], state, accepted', rejected', decided);
      GrowByOne(earlier, order, j);
      decided := decided + {order[j]};
    }
    assert order[..|order|] == order;
    RoundEnds(profile, byId, order, depth);
  }

  lemma GrowByOne(base: set<Id>, order: seq<Id>, j: nat)
    requires j < |order|
    ensures base + Elements(order[..j]) + {order[j]} == base + Elements(order[..j + 1])
  {
    assert order[..j + 1] == order[..j] + [order[j]];
  }

  // ------------------------------------------------------------------ all rounds

  /** What is still pending before round `depth`. */
  ghost predicate PendingAt(g: Graph, pending: set<Id>, depth: nat) {
    forall x :: x in pending <==> HasChain(g, x, depth)
  }

  function ReadyIn(byId: Candidates, pending: set<Id>): set<Id>
    requires pending <= byId.Keys
  {
    set x | x in pending && Parents(byId[x]) !! pending
  }

  /** Ready are exactly the candidates whose depth is the round number. */
  lemma ReadyIsRound(profile: Profile, byId: Candidates, pending: set<Id>, depth: nat, x: Id)
    requires pending <= byId.Keys && PendingAt(GraphOf(profile, byId), pending, depth)
    ensures x in ReadyIn(byId, pending)
            <==> x in DecisionKeys(profile, byId) && DecisionKeys(profile, byId)[x].depth == depth
    ensures x in pending - ReadyIn(byId, pending) <==> HasChain(GraphOf(profile, byId), x, depth + 1)
  {
    var g := GraphOf(profile, byId);
    if x in pending {
      assert x in g && g[x] == byId[x].content.parents;
      assert Parents(byId[x]) !! pending <==> !HasChain(g, x, depth + 1);
      if x in ReadyIn(byId, pending) {
        DepthIsUnique(g, x, depth);
      }
    } else {
      if HasChain(g, x, depth + 1) {
        ChainsShorten(g, x, depth, depth + 1);
      }
    }
  }

  lemma ReadyOrderIsRoundOrder(
    profile: Profile, byId: Candidates, payloads: map<Id, ChatPayload>, authors: map<Id, Id>,
    pending: set<Id>, depth: nat)
    requires Prepared(profile, byId, payloads, authors) && pending <= payloads.Keys
    requires PendingAt(GraphOf(profile, byId), pending, depth)
    ensures RoundOrder(profile, byId, ReadyOrder(payloads, ReadyIn(byId, pending)), depth)
    ensures Elements(ReadyOrder(payloads, ReadyIn(byId, pending))) == ReadyIn(byId, pending)
  {
    var keys, ready := DecisionKeys(profile, byId), ReadyIn(byId, pending);
    forall x
      ensures x in ready <==> x in keys && keys[x].depth == depth
    {
      ReadyIsRound(profile, byId, pending, depth, x);
    }
    ReadyOrderIsSorted(payloads, ready, keys, depth);
    IsRoundOrder(profile, byId, ReadyOrder(payloads, ready), ready, depth);
  }

  lemma IsRoundOrder(profile: Profile, byId: Candidates, order: seq<Id>, ready: set<Id>, depth: nat)
    requires SortedByKey(DecisionKeys(profile, byId), order) && Elements(order) == ready
    requires forall x :: x in ready <==>
                           x in DecisionKeys(profile, byId) && DecisionKeys(profile, byId)[x].depth == depth
    ensures RoundOrder(profile, byId, order, depth)
  {
    assert forall i :: 0 <= i < |order| ==> order[i] in Elements(order);
    assert forall x :: x in ready ==> x in Elements(order);
  }

  /** When nothing is ready, what is pending is never settled, and everything settled is decided. */
  lemma StuckMeansDone(profile: Profile, byId: Candidates, pending: set<Id>, depth: nat)
    requires pending <= byId.Keys && PendingAt(GraphOf(profile, byId), pending, depth)
    requires ReadyIn(byId, pending) == {}
    ensures Earlier(profile, byId, depth) == DecisionKeys(profile, byId).Keys
    ensures pending == GraphOf(profile, byId).Keys - DecisionKeys(profile, byId).Keys
  {
    var g, keys := GraphOf(profile, byId), DecisionKeys(profile, byId);
    forall x | x in pending
      ensures x in g && !Settled(g, x)
    {
      NeverReady(profile, byId, pending, depth, x);
    }
    forall x | x in g && x !in pending
      ensures Settled(g, x) && Depth(g, x) < depth
    {
      assert !HasChain(g, x, depth);
      ChainsReachDepth(g, x, depth);
    }
  }

  lemma NeverReady(profile: Profile, byId: Candidates, pending: set<Id>, depth: nat, x: Id)
    requires pending <= byId.Keys && PendingAt(GraphOf(profile, byId), pending, depth)
    requires ReadyIn(byId, pending) == {} && x in pending
    ensures x in GraphOf(profile, byId) && !Settled(GraphOf(profile, byId), x)
  {
    var g := GraphOf(profile, byId);
    forall y | y in pending
      ensures y in g && NamesMember(g, pending, y)
    {
      assert HasChain(g, y, depth);
      assert y !in ReadyIn(byId, pending);
      var p :| p in Parents(byId[y]) && p in pending;
      assert p in g[y];
    }
    forall k: nat
      ensures HasChain(g, x, k)
    {
      StuckHasChains(g, pending, x, k);
    }
  }

  /**
   Resolves a list of candidate events. It fails exactly when some event fails protocol validation,
   with the first such fault, and otherwise returns the resolution of the candidate set.
   */
  method Resolve(profile: Profile, events: seq<SignedEvent>)
    returns (r: Result<ChatResolution, ProtocolError>)
    requires NoCollisions(events)
    ensures r.Ok? <==> forall e :: e in events ==> ValidEvent(profile.crypto, e)
    ensures r.Err? ==> Some(r.error) == FirstFault(profile.crypto, events)
    ensures r.Ok? ==> Resolves(profile, Index(events), r.value)
  {
    var fault, byId, payloads, authors, rejected := Prepare(profile, events);
    if fault.Some? {
      return Err(fault.value);
    }
    CoversIsIndex(byId, events);
    var resolution := RunRounds(profile, byId, payloads, authors, rejected);
    return Ok(resolution);
  }

  lemma StartsInProgress(
    profile: Profile, byId: Candidates, payloads: map<Id, ChatPayload>, authors: map<Id, Id>,
    rejected: map<Id, RejectionReason>)
    requires Prepared(profile, byId, payloads, authors) && OnlyUndecodable(profile, byId, rejected)
    ensures InProgress(profile, byId, [], rejected, Earlier(profile, byId, 0))
    ensures PendingAt(GraphOf(profile, byId), payloads.Keys, 0)
  {
    assert Earlier(profile, byId, 0) == {};
    assert RejectedRest(profile, byId, [], rejected, {});
  }

  method RunRounds(
    profile: Profile, byId: Candidates, payloads: map<Id, ChatPayload>, authors: map<Id, Id>,
    undecodable: map<Id, RejectionReason>)
    returns (r: ChatResolution)
    requires Prepared(profile, byId, payloads, authors) && OnlyUndecodable(profile, byId, undecodable)
    ensures Resolves(profile, byId, r)
  {
    var state := new LiveState();
    var accepted: seq<Id>, rejected := [], undecodable;
    var pending := payloads.Keys;
    ghost var depth := 0;
    StartsInProgress(profile, byId, payloads, authors, rejected);
    while true
      invariant pending <= payloads.Keys && PendingAt(GraphOf(profile, byId), pending, depth)
      invariant Underway(profile, byId, accepted, rejected, Earlier(profile, byId, depth), state.View())
      decreases |pending|
    {
      var ready := ReadyIn(byId, pending);
      if ready == {} {
        break;
      }
      var order := ReadyOrder(payloads, ready);
      ReadyOrderIsRoundOrder(profile, byId, payloads, authors, pending, depth);
      accepted, rejected := DecideRound(profile, byId, payloads, authors, order, state, accepted, rejected, depth);
      forall x
        ensures x in pending - ready <==> HasChain(GraphOf(profile, byId), x, depth + 1)
      {
        ReadyIsRound(profile, byId, pending, depth, x);
      }
      SmallerPending(pending, ready);
      pending, depth := pending - ready, depth + 1;
    }
    StuckMeansDone(profile, byId, pending, depth);
    ghost var decided := rejected;
    rejected := rejected + map x | x in pending :: MissingParent;
    FinalRejections(profile, byId, accepted, decided, pending);
    return ChatResolution(accepted, rejected, SnapshotOf(state.View(), accepted));
  }

  lemma SmallerPending(pending: set<Id>, ready: set<Id>)
    requires ready <= pending && ready != {}
    ensures |pending - ready| < |pending|
  {
    assert |pending| == |pending - ready| + |ready| by {
      assert pending == (pending - ready) + ready;
    }
  }

  /** Leftovers are rejected as missing a parent. */
  lemma FinalRejections(
    profile: Profile, byId: Candidates, accepted: seq<Id>, rejected: map<Id, RejectionReason>, pending: set<Id>)
    requires InProgress(profile, byId, accepted, rejected, DecisionKeys(profile, byId).Keys)
    requires pending == GraphOf(profile, byId).Keys - DecisionKeys(profile, byId).Keys
    ensures var all := rejected + map x | x in pending :: MissingParent;
            && all.Keys == byId.Keys - Elements(accepted)
            && forall x :: x in all ==> all[x] == Reason(profile, byId, accepted, x)
  {
    var keys := DecisionKeys(profile, byId);
    AllRejected(profile, byId, accepted, rejected, pending);
    forall x | x in pending
      ensures Reason(profile, byId, accepted, x) == MissingParent
    {
      assert x !in keys && Decode(profile, byId[x]).Some?;
    }
  }

  lemma AllRejected(
    profile: Profile, byId: Candidates, accepted: seq<Id>, rejected: map<Id, RejectionReason>, pending: set<Id>)
    requires InProgress(profile, byId, accepted, rejected, DecisionKeys(profile, byId).Keys)
    requires pending == GraphOf(profile, byId).Keys - DecisionKeys(profile, byId).Keys
    ensures rejected.Keys + pending == byId.Keys - Elements(accepted)
  {
    var keys := DecisionKeys(profile, byId);
    assert forall i :: 0 <= i < |accepted| ==> accepted[i] in keys;
    forall x
      ensures x in rejected.Keys + pending <==> x in byId.Keys - Elements(accepted)
    {
    }
  }
}
