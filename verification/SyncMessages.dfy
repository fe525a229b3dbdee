/** The synchronization messages, their validation, and packing events into messages (crates/sync/src/lib.rs). */
module SyncMessages {
  import opened Wrappers
  import opened Protocol
  import opened Json
  import Packing

  const SYNC_VERSION: U16 := 1
  const MAX_SYNC_JSON_BYTES := 512 * 1024
  const MAX_VERSIONS := 8
  const MAX_IDS_PER_MESSAGE: nat := 64
  const MAX_EVENTS_PER_MESSAGE: nat := 64

  datatype SyncMessage =
    | Hello(syncVersion: U16, protocolVersions: seq<U16>, community: Id)
    | Heads(community: Id, ids: seq<Id>)
    | Want(community: Id, ids: seq<Id>)
    | Deliver(community: Id, events: seq<SignedEvent>)

  datatype SyncError =
    | TooLarge
    | UnsupportedVersion
    | ItemLimitExceeded
    | InvalidEventIds
    | WrongCommunity
    | InvalidEvent(fault: ProtocolError)
    | InvalidStorageQuota
    | StorageQuotaExceeded(limit: nat)

  function VersionItemsJson(versions: seq<U16>): nat {
    if versions == [] then 0
    else Digits(versions[0]) + (if |versions| > 1 then 1 else 0) + VersionItemsJson(versions[1..])
  }

  /** Length of the externally tagged compact JSON of a message. */
  function MessageJson(message: SyncMessage): nat {
    match message
    case Hello(version, versions, community) =>
      25 + Digits(version) + 21 + (2 + VersionItemsJson(versions)) + 16 + IdJson(community) + 2
    case Heads(community, ids) => 25 + IdJson(community) + 13 + IdsJson(ids) + 2
    case Want(community, ids) => 24 + IdJson(community) + 13 + IdsJson(ids) + 2
    case Deliver(community, events) => 26 + IdJson(community) + 10 + EventsJson(events) + 2
  }

  function IdsFault(ids: seq<Id>): Option<SyncError> {
    if |ids| > MAX_IDS_PER_MESSAGE then Some(ItemLimitExceeded)
    else if !StrictlySorted(ids) then Some(InvalidEventIds)
    else None
  }

  predicate SortedEvents(events: seq<SignedEvent>) {
    forall i, j :: 0 <= i < j < |events| ==> events[i].id < events[j].id
  }

  function EventsFault(crypto: Crypto, events: seq<SignedEvent>): Option<SyncError> {
    if events == [] || |events| > MAX_EVENTS_PER_MESSAGE then Some(ItemLimitExceeded)
    else if !SortedEvents(events) then Some(InvalidEventIds)
    else if FirstFault(crypto, events).Some? then Some(InvalidEvent(FirstFault(crypto, events).value))
    else None
  }

  function ContentFault(crypto: Crypto, message: SyncMessage): Option<SyncError> {
    match message
    case Hello(version, versions, _) =>
      if version != SYNC_VERSION || versions == [] || |versions| > MAX_VERSIONS || PROTOCOL_VERSION !in versions
      then Some(SyncError.UnsupportedVersion) else None
    case Heads(_, ids) => IdsFault(ids)
    case Want(_, ids) => IdsFault(ids)
    case Deliver(_, events) => EventsFault(crypto, events)
  }

  /** `validate_message`: the content, then the encoded size. */
  function MessageFault(crypto: Crypto, message: SyncMessage): Option<SyncError> {
    if ContentFault(crypto, message).Some? then ContentFault(crypto, message)
    else if MessageJson(message) > MAX_SYNC_JSON_BYTES then Some(TooLarge)
    else None
  }

  predicate ValidMessage(crypto: Crypto, message: SyncMessage) {
    MessageFault(crypto, message).None?
  }

  /** When each message is valid. */
  lemma ValidMessageIs(crypto: Crypto, message: SyncMessage)
    ensures ValidMessage(crypto, message) <==>
              && MessageJson(message) <= 524_288
              && match message
                 case Hello(version, versions, _) => version == 1 && 1 <= |versions| <= 8 && 2 in versions
                 case Heads(_, ids) => |ids| <= 64 && forall i :: 0 < i < |ids| ==> ids[i - 1] < ids[i]
                 case Want(_, ids) => |ids| <= 64 && forall i :: 0 < i < |ids| ==> ids[i - 1] < ids[i]
                 case Deliver(_, events) =>
                   && 1 <= |events| <= 64 && (forall i :: 0 < i < |events| ==> events[i - 1].id < events[i].id)
                   && forall e :: e in events ==> ValidEvent(crypto, e)
  {
    match message {
      case Hello(_, _, _) =>
      case Heads(_, ids) => AdjacentOrder(ids);
      case Want(_, ids) => AdjacentOrder(ids);
      case Deliver(_, events) => AdjacentEvents(events);
    }
  }

  /** Each reason for refusing a message means that its check fails and the checks before it pass. */
  lemma MessageRefusalIs(crypto: Crypto, message: SyncMessage)
    requires MessageFault(crypto, message).Some?
    ensures match MessageFault(crypto, message).value
            case UnsupportedVersion => message.Hello?
            case ItemLimitExceeded =>
              if message.Deliver? then !(1 <= |message.events| <= 64) else !message.Hello? && |message.ids| > 64
            case InvalidEventIds =>
              if message.Deliver? then 1 <= |message.events| <= 64 && !SortedEvents(message.events)
              else !message.Hello? && |message.ids| <= 64 && !StrictlySorted(message.ids)
            case InvalidEvent(fault) =>
              && message.Deliver? && 1 <= |message.events| <= 64 && SortedEvents(message.events)
              && FirstFault(crypto, message.events) == Some(fault)
            case TooLarge => MessageJson(message) > 524_288 && ContentFault(crypto, message) == None
            case _ => false
  {
  }

  lemma AdjacentEvents(events: seq<SignedEvent>)
    ensures SortedEvents(events) <==> forall i :: 0 < i < |events| ==> events[i - 1].id < events[i].id
  {
    var ids := seq(|events|, i requires 0 <= i < |events| => events[i].id);
    AdjacentOrder(ids);
    assert forall i :: 0 <= i < |events| ==> ids[i] == events[i].id;
    if StrictlySorted(ids) {
      assert forall i, j :: 0 <= i < j < |events| ==> events[i].id == ids[i] && events[j].id == ids[j];
    }
  }

  // ------------------------------------------------------------------ everything small enough

  lemma IdMessagesAreValid(crypto: Crypto, community: Id, ids: seq<Id>)
    requires StrictlySorted(ids) && |ids| <= MAX_IDS_PER_MESSAGE
    ensures ValidMessage(crypto, Heads(community, ids)) && ValidMessage(crypto, Want(community, ids))
  {
    IdJsonBound(community);
    IdsJsonBound(ids);
  }

  lemma HelloIsValid(crypto: Crypto, community: Id)
    ensures ValidMessage(crypto, Hello(SYNC_VERSION, [PROTOCOL_VERSION], community))
  {
    IdJsonBound(community);
    assert VersionItemsJson([PROTOCOL_VERSION]) == 1;
  }

  /** A single valid event always fits a message. */
  lemma SingleEventIsValid(crypto: Crypto, community: Id, event: SignedEvent)
    requires ValidEvent(crypto, event)
    ensures ValidMessage(crypto, Deliver(community, [event]))
    ensures MessageJson(Deliver(community, [event])) <= 268_200
  {
    ValidEventJsonBound(crypto, event);
    IdJsonBound(community);
    assert EventItemsJson([event]) == EventJson(event);
  }

  // ------------------------------------------------------------------ packing

  /** One delivery message per batch. */
  function Deliveries(community: Id, batches: seq<seq<SignedEvent>>): (messages: seq<SyncMessage>)
    ensures |messages| == |batches|
    ensures forall i :: 0 <= i < |batches| ==> messages[i] == Deliver(community, batches[i])
  {
    seq(|batches|, i requires 0 <= i < |batches| => Deliver(community, batches[i]))
  }

  /** The batch makes a valid message. */
  function Fits(crypto: Crypto, community: Id): seq<SignedEvent> -> bool {
    batch => ValidMessage(crypto, Deliver(community, batch))
  }

  /** No further event fits: the message has all its places taken, or would exceed the size limit. */
  function Full(community: Id): (seq<SignedEvent>, SignedEvent) -> bool {
    (batch, next) =>
      |batch| == MAX_EVENTS_PER_MESSAGE
      || MessageJson(Deliver(community, batch + [next])) > MAX_SYNC_JSON_BYTES
  }

  /** The messages deliver exactly these events in order, each valid, and none but the last with room left. */
  ghost predicate PackedAs(crypto: Crypto, community: Id, events: seq<SignedEvent>, messages: seq<SyncMessage>) {
    exists batches ::
      Packing.PackedAs(Fits(crypto, community), Full(community), events, batches)
      && messages == Deliveries(community, batches)
  }

  /** Why a valid ascending candidate batch may be refused: only for being too large. */
  lemma CandidateVerdict(crypto: Crypto, community: Id, events: seq<SignedEvent>, batch: seq<SignedEvent>)
    requires 0 < |batch| <= MAX_EVENTS_PER_MESSAGE
    requires SortedEvents(events) ==> SortedEvents(batch)
    requires FirstFault(crypto, events).None? ==> FirstFault(crypto, batch).None?
    ensures SortedEvents(events) && FirstFault(crypto, events).None? ==>
              MessageFault(crypto, Deliver(community, batch)) in {None, Some(TooLarge)}
  {
  }

  lemma PieceIsSorted(crypto: Crypto, events: seq<SignedEvent>, i: nat, j: nat)
    requires i <= j <= |events|
    ensures SortedEvents(events) ==> SortedEvents(events[i..j])
    ensures FirstFault(crypto, events).None? ==> FirstFault(crypto, events[i..j]).None?
  {
    assert forall e :: e in events[i..j] ==> e in events;
  }

  /** A valid event is never refused on its own. */
  lemma AloneIsFine(crypto: Crypto, community: Id, events: seq<SignedEvent>, k: nat)
    requires k < |events|
    ensures FirstFault(crypto, events).None? ==> ValidMessage(crypto, Deliver(community, [events[k]]))
  {
    assert events[k] in events;
    if ValidEvent(crypto, events[k]) {
      SingleEventIsValid(crypto, community, events[k]);
    }
  }

  lemma OpenIsSmall(crypto: Crypto, community: Id, closed: seq<seq<SignedEvent>>, batch: seq<SignedEvent>)
    requires Packing.WellPacked(Fits(crypto, community), Full(community), Packing.Closing(closed, batch))
    ensures |batch| <= MAX_EVENTS_PER_MESSAGE
  {
    if batch != [] {
      assert Packing.Closing(closed, batch)[|closed|] == batch;
    }
  }

  /** The packing of `done` so far: closed batches, already messages, and an open one. */
  ghost predicate PackState(
    crypto: Crypto, community: Id, done: seq<SignedEvent>, closed: seq<seq<SignedEvent>>,
    messages: seq<SyncMessage>, batch: seq<SignedEvent>)
  {
    && messages == Deliveries(community, closed) && (closed != [] ==> batch != [])
    && Packing.PackedAs(Fits(crypto, community), Full(community), done, Packing.Closing(closed, batch))
  }

  /** The candidate batch at position `k` is a piece of the input. */
  lemma CandidateIsPiece(
    crypto: Crypto, community: Id, events: seq<SignedEvent>, k: nat,
    closed: seq<seq<SignedEvent>>, messages: seq<SyncMessage>, batch: seq<SignedEvent>)
    requires k < |events| && PackState(crypto, community, events[..k], closed, messages, batch)
    ensures |batch| <= k && batch + [events[k]] == events[k - |batch|..k + 1]
    ensures |batch| <= MAX_EVENTS_PER_MESSAGE
  {
    OpenIsSmall(crypto, community, closed, batch);
    Packing.OpenAndNext(Fits(crypto, community), Full(community), events, k, closed, batch);
  }

  lemma PackGrows(
    crypto: Crypto, community: Id, done: seq<SignedEvent>, closed: seq<seq<SignedEvent>>,
    messages: seq<SyncMessage>, batch: seq<SignedEvent>, event: SignedEvent)
    requires PackState(crypto, community, done, closed, messages, batch)
    requires Fits(crypto, community)(batch + [event])
    ensures PackState(crypto, community, done + [event], closed, messages, batch + [event])
  {
    Packing.Grows(Fits(crypto, community), Full(community), done, closed, batch, event);
  }

  lemma PackTurns(
    crypto: Crypto, community: Id, done: seq<SignedEvent>, closed: seq<seq<SignedEvent>>,
    messages: seq<SyncMessage>, batch: seq<SignedEvent>, event: SignedEvent)
    requires PackState(crypto, community, done, closed, messages, batch)
    requires batch != [] && Full(community)(batch, event) && Fits(crypto, community)([event])
    ensures PackState(crypto, community, done + [event], closed + [batch],
                      messages + [Deliver(community, batch)], [event])
  {
    Packing.Turns(Fits(crypto, community), Full(community), done, closed, batch, event);
    assert Deliveries(community, closed + [batch]) == Deliveries(community, closed) + [Deliver(community, batch)];
  }

  lemma PackEnds(
    crypto: Crypto, community: Id, done: seq<SignedEvent>, closed: seq<seq<SignedEvent>>,
    messages: seq<SyncMessage>, batch: seq<SignedEvent>)
    requires PackState(crypto, community, done, closed, messages, batch)
    ensures PackedAs(crypto, community, done, messages + if batch == [] then [] else [Deliver(community, batch)])
  {
    var batches := Packing.Closing(closed, batch);
    assert Deliveries(community, batches)
        == Deliveries(community, closed) + if batch == [] then [] else [Deliver(community, batch)];
  }

  /**
   `pack_events`: greedy packing. It succeeds on every ascending list of valid events, and whenever it
   succeeds the messages concatenate to the input, are valid, and none but the last has room left.
   */
  method PackEvents(crypto: Crypto, community: Id, events: seq<SignedEvent>)
    returns (r: Result<seq<SyncMessage>, SyncError>)
    ensures r.Ok? ==> PackedAs(crypto, community, events, r.value)
    ensures SortedEvents(events) && FirstFault(crypto, events).None? ==> r.Ok?
  {
    var messages: seq<SyncMessage> := [];
    var batch: seq<SignedEvent> := [];
    ghost var closed: seq<seq<SignedEvent>> := [];
    PackBegins(crypto, community);
    assert events[..0] == [];
    for k := 0 to |events|
      invariant PackState(crypto, community, events[..k], closed, messages, batch)
    {
      var fault;
      fault, closed, messages, batch := PackOne(crypto, community, events, k, closed, messages, batch);
      if fault.Some? {
        return Err(fault.value);
      }
    }
    assert events[..|events|] == events;
    PackEnds(crypto, community, events, closed, messages, batch);
    return Ok(messages + if batch == [] then [] else [Deliver(community, batch)]);
  }

  lemma PackBegins(crypto: Crypto, community: Id)
    ensures PackState(crypto, community, [], [], [], [])
  {
  }

  /** Packs the event at position `k`. */
  method PackOne(
    crypto: Crypto, community: Id, events: seq<SignedEvent>, k: nat, ghost closed: seq<seq<SignedEvent>>,
    messages: seq<SyncMessage>, batch: seq<SignedEvent>)
    returns (fault: Option<SyncError>, ghost closed': seq<seq<SignedEvent>>,
             messages': seq<SyncMessage>, batch': seq<SignedEvent>)
    requires k < |events| && PackState(crypto, community, events[..k], closed, messages, batch)
    ensures SortedEvents(events) && FirstFault(crypto, events).None? ==> fault.None?
    ensures fault.None? ==> PackState(crypto, community, events[..k + 1], closed', messages', batch')
  {
    closed', messages', batch' := closed, messages, batch;
    assert events[..k + 1] == events[..k] + [events[k]];
    CandidateIsPiece(crypto, community, events, k, closed, messages, batch);
    var turn;
    fault, turn := Consider(crypto, community, events, k, batch);
    if fault.None? {
      if turn {
        PackTurns(crypto, community, events[..k], closed, messages, batch, events[k]);
        messages' := messages + [Deliver(community, batch)];
        closed' := closed + [batch];
        batch' := [events[k]];
      } else {
        PackGrows(crypto, community, events[..k], closed, messages, batch, events[k]);
        batch' := batch + [events[k]];
      }
    }
  }

  /** What to do with the next event: refuse it, start a new message with it, or add it to the batch. */
  method Consider(crypto: Crypto, community: Id, events: seq<SignedEvent>, k: nat, batch: seq<SignedEvent>)
    returns (fault: Option<SyncError>, turn: bool)
    requires k < |events| && |batch| <= k && batch + [events[k]] == events[k - |batch|..k + 1]
    requires |batch| <= MAX_EVENTS_PER_MESSAGE
    ensures SortedEvents(events) && FirstFault(crypto, events).None? ==> fault.None?
    ensures fault.None? && turn ==>
              batch != [] && Full(community)(batch, events[k]) && Fits(crypto, community)([events[k]])
    ensures fault.None? && !turn ==> Fits(crypto, community)(batch + [events[k]])
  {
    AloneIsFine(crypto, community, events, k);
    var candidate := MessageFault(crypto, Deliver(community, batch + [events[k]]));
    turn := |batch| == MAX_EVENTS_PER_MESSAGE || candidate == Some(TooLarge);
    if turn {
      TurnIsFull(crypto, community, batch, events[k]);
      fault := MessageFault(crypto, Deliver(community, [events[k]]));
      if batch == [] {
        assert batch + [events[k]] == [events[k]];
      }
    } else {
      PieceIsSorted(crypto, events, k - |batch|, k + 1);
      CandidateVerdict(crypto, community, events, batch + [events[k]]);
      fault := candidate;
    }
  }

  lemma TurnIsFull(crypto: Crypto, community: Id, batch: seq<SignedEvent>, next: SignedEvent)
    requires |batch| == MAX_EVENTS_PER_MESSAGE
             || MessageFault(crypto, Deliver(community, batch + [next])) == Some(TooLarge)
    ensures Full(community)(batch, next)
  {
  }
}
