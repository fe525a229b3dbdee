/**
 The signed event core (crates/protocol): event records, their canonical bytes, the structural and
 cryptographic checks, and the proof that canonical bytes and Event IDs determine an event.

 A 32-byte identifier is its big-endian value, so the derived byte-wise order is `<`.
 Ed25519 and BLAKE3 are parameters.
 */
module Protocol {
  import opened Wrappers
  import opened Bytes

  const ID_BYTES: nat := 32
  const PROTOCOL_VERSION: U16 := 2
  const MAX_PARENTS := 32
  const MAX_EVENT_TYPE_BYTES := 64
  const MAX_PAYLOAD_BYTES := 64 * 1024
  const PUBLIC_KEY_LEN := 32
  const SIGNATURE_LEN := 64

  type U16 = x: int | 0 <= x < 0x1_0000
  type I64 = x: int | -0x8000_0000_0000_0000 <= x < 0x8000_0000_0000_0000

  /** Event, community, user, device and channel identifiers. */
  type Id = x: int |
    0 <= x < 0x1_0000000000000000_0000000000000000_0000000000000000_0000000000000000

  datatype Content = Content(
    version: U16,
    community: Option<Id>,
    parents: seq<Id>,
    timestamp: I64,
    eventType: Octets,
    payload: Octets)

  datatype SignedEvent = SignedEvent(content: Content, publicKey: Octets, signature: Octets, id: Id)

  /** The library calls: BLAKE3 over bytes, and Ed25519 verification of (key, message, signature). */
  datatype Crypto = Crypto(hash: Octets -> Id, verify: (Octets, Octets, Octets) -> bool)

  datatype ProtocolError =
    | UnsupportedVersion
    | InvalidEventType
    | PayloadTooLarge
    | TooManyParents
    | InvalidParents
    | InvalidGenesis
    | InvalidCommunityReference
    | InvalidPublicKeyLength
    | InvalidSignatureLength
    | InvalidSignature
    | EventIdMismatch

  predicate StrictlySorted(ids: seq<Id>) {
    forall i, j :: 0 <= i < j < |ids| ==> ids[i] < ids[j]
  }

  // ------------------------------------------------------------------ canonical bytes

  function IdBytes(id: Id): (bytes: Octets)
    ensures |bytes| == ID_BYTES
  {
    BigEndian(ID_BYTES, id)
  }

  /** A length written as `len as u32`, followed by the value: lengths of 2^32 and more wrap. */
  function LengthPrefixed(value: Octets): Octets {
    BigEndian(4, |value|) + value
  }

  function ParentBytes(parents: seq<Id>): (bytes: Octets)
    ensures |bytes| == ID_BYTES * |parents|
  {
    if parents == [] then [] else IdBytes(parents[0]) + ParentBytes(parents[1..])
  }

  function CommunityBytes(community: Option<Id>): Octets {
    match community
    case Some(id) => [1] + IdBytes(id)
    case None => [0]
  }

  /** Two's complement. */
  function TimestampBytes(timestamp: I64): Octets {
    BigEndian(8, if timestamp < 0 then timestamp + 0x1_0000_0000_0000_0000 else timestamp)
  }

  function ContentDomain(): Octets {
    Ascii("chatcommons:content:v2\0")
  }

  function EventDomain(): Octets {
    Ascii("chatcommons:event:v2\0")
  }


  function CanonicalBody(content: Content): Octets {
    BigEndian(2, content.version)
    + (CommunityBytes(content.community)
       + (BigEndian(4, |content.parents|)
          + (ParentBytes(content.parents)
             + (TimestampBytes(content.timestamp)
                + (LengthPrefixed(content.eventType)
                   + LengthPrefixed(content.payload))))))
  }

  function CanonicalContent(content: Content): Octets {
    ContentDomain() + CanonicalBody(content)
  }

  function EventIdPreimage(content: Content, publicKey: Octets, signature: Octets): Octets {
    EventDomain() + CanonicalContent(content) + publicKey + signature
  }

  // ------------------------------------------------------------------ validation

  /** The first check the event fails, in the order the checks are made; `None` accepts it. */
  function EventFault(crypto: Crypto, event: SignedEvent): Option<ProtocolError> {
    var content := event.content;
    if content.version != PROTOCOL_VERSION then Some(UnsupportedVersion)
    else if content.eventType == [] || |content.eventType| > MAX_EVENT_TYPE_BYTES then Some(InvalidEventType)
    else if |content.payload| > MAX_PAYLOAD_BYTES then Some(PayloadTooLarge)
    else if |content.parents| > MAX_PARENTS then Some(TooManyParents)
    else if !StrictlySorted(content.parents) then Some(InvalidParents)
    else if content.community.None? && content.parents != [] then Some(InvalidGenesis)
    else if content.community.Some? && content.parents == [] then Some(InvalidCommunityReference)
    else if |event.publicKey| != PUBLIC_KEY_LEN then Some(InvalidPublicKeyLength)
    else if |event.signature| != SIGNATURE_LEN then Some(InvalidSignatureLength)
    else if !crypto.verify(event.publicKey, CanonicalContent(content), event.signature) then Some(InvalidSignature)
    else if crypto.hash(EventIdPreimage(content, event.publicKey, event.signature)) != event.id
      then Some(EventIdMismatch)
    else None
  }

  predicate ValidEvent(crypto: Crypto, event: SignedEvent) {
    EventFault(crypto, event).None?
  }

  /** The fault of the first event that has one. */
  function FirstFault(crypto: Crypto, events: seq<SignedEvent>): (fault: Option<ProtocolError>)
    ensures fault.None? <==> forall e :: e in events ==> ValidEvent(crypto, e)
  {
    if events == [] then None
    else if EventFault(crypto, events[0]).Some? then
      assert events[0] in events;
      EventFault(crypto, events[0])
    else FirstFault(crypto, events[1..])
  }

  lemma {:induction false} FirstFaultIsAt(crypto: Crypto, events: seq<SignedEvent>, i: nat)
    requires i < |events| && EventFault(crypto, events[i]).Some?
    requires forall j :: 0 <= j < i ==> ValidEvent(crypto, events[j])
    ensures FirstFault(crypto, events) == EventFault(crypto, events[i])
  {
    if i != 0 {
      FirstFaultIsAt(crypto, events[1..], i - 1);
    }
  }

  /** An event is valid exactly when every one of these holds of it. */
  lemma ValidityIs(crypto: Crypto, event: SignedEvent)
    ensures ValidEvent(crypto, event) <==>
              var content := event.content;
              && content.version == 2
              && 1 <= |content.eventType| <= 64
              && |content.payload| <= 65_536
              && |content.parents| <= 32
              && (forall i :: 0 < i < |content.parents| ==> content.parents[i - 1] < content.parents[i])
              && (content.community == None <==> content.parents == [])
              && |event.publicKey| == 32
              && |event.signature| == 64
              && crypto.verify(event.publicKey, CanonicalContent(content), event.signature)
              && event.id == crypto.hash(EventIdPreimage(content, event.publicKey, event.signature))
  {
    AdjacentOrder(event.content.parents);
  }

  lemma {:induction false} AdjacentOrder(ids: seq<Id>)
    ensures StrictlySorted(ids) <==> forall i :: 0 < i < |ids| ==> ids[i - 1] < ids[i]
  {
    if ids != [] {
      var init := ids[..|ids| - 1];
      AdjacentOrder(init);
      assert forall i :: 0 <= i < |init| ==> init[i] == ids[i];
      if StrictlySorted(init) && |ids| > 1 && ids[|ids| - 2] < ids[|ids| - 1] {
        assert forall i :: 0 <= i < |init| - 1 ==> init[i] < init[|init| - 1];
      }
    }
  }

  /** What an event has to satisfy so that the error is not reported of it. */
  predicate Passes(crypto: Crypto, event: SignedEvent, error: ProtocolError) {
    match error
    case UnsupportedVersion => event.content.version == 2
    case InvalidEventType => 1 <= |event.content.eventType| <= 64
    case PayloadTooLarge => |event.content.payload| <= 65_536
    case TooManyParents => |event.content.parents| <= 32
    case InvalidParents => StrictlySorted(event.content.parents)
    case InvalidGenesis => event.content.parents == [] || event.content.community.Some?
    case InvalidCommunityReference => event.content.parents != [] || event.content.community.None?
    case InvalidPublicKeyLength => |event.publicKey| == 32
    case InvalidSignatureLength => |event.signature| == 64
    case InvalidSignature => crypto.verify(event.publicKey, CanonicalContent(event.content), event.signature)
    case EventIdMismatch =>
      event.id == crypto.hash(EventIdPreimage(event.content, event.publicKey, event.signature))
  }

  /** The checks in the order they are made. */
  const CHECK_ORDER := [
    UnsupportedVersion, InvalidEventType, PayloadTooLarge, TooManyParents, InvalidParents, InvalidGenesis,
    InvalidCommunityReference, InvalidPublicKeyLength, InvalidSignatureLength, InvalidSignature, EventIdMismatch]

  /** An error is reported exactly when its check fails and the checks made before it pass. */
  lemma FaultIsFirstFailure(crypto: Crypto, event: SignedEvent, k: nat)
    requires k < |CHECK_ORDER|
    ensures EventFault(crypto, event) == Some(CHECK_ORDER[k]) <==>
              !Passes(crypto, event, CHECK_ORDER[k])
              && forall j :: 0 <= j < k ==> Passes(crypto, event, CHECK_ORDER[j])
  {
    match EventFault(crypto, event) {
      case None => assert Passes(crypto, event, CHECK_ORDER[k]);
      case Some(fault) =>
        var i := CheckFor(fault);
        FaultsInOrder(crypto, event, i);
    }
  }

  lemma CheckFor(error: ProtocolError) returns (i: nat)
    ensures i < |CHECK_ORDER| && CHECK_ORDER[i] == error
  {
    match error {
      case UnsupportedVersion => i := 0;
      case InvalidEventType => i := 1;
      case PayloadTooLarge => i := 2;
      case TooManyParents => i := 3;
      case InvalidParents => i := 4;
      case InvalidGenesis => i := 5;
      case InvalidCommunityReference => i := 6;
      case InvalidPublicKeyLength => i := 7;
      case InvalidSignatureLength => i := 8;
      case InvalidSignature => i := 9;
      case EventIdMismatch => i := 10;
    }
  }

  lemma FaultsInOrder(crypto: Crypto, event: SignedEvent, i: nat)
    requires i < |CHECK_ORDER| && EventFault(crypto, event) == Some(CHECK_ORDER[i])
    ensures !Passes(crypto, event, CHECK_ORDER[i])
    ensures forall j :: 0 <= j < i ==> Passes(crypto, event, CHECK_ORDER[j])
  {
  }

  function AuthorId(crypto: Crypto, event: SignedEvent): Id {
    crypto.hash(event.publicKey)
  }

  /**
   The event is signed by its author: the key its author id is the hash of verifies the signature over the
   event's canonical bytes, and its id is the hash of all of it.
   */
  predicate SignedByAuthor(crypto: Crypto, event: SignedEvent) {
    && |event.publicKey| == 32 && |event.signature| == 64
    && AuthorId(crypto, event) == crypto.hash(event.publicKey)
    && crypto.verify(event.publicKey, CanonicalContent(event.content), event.signature)
    && event.id == crypto.hash(EventIdPreimage(event.content, event.publicKey, event.signature))
  }

  lemma ValidIsSigned(crypto: Crypto, event: SignedEvent)
    requires ValidEvent(crypto, event)
    ensures SignedByAuthor(crypto, event)
  {
    ValidityIs(crypto, event);
  }

  predicate IsGenesis(event: SignedEvent) {
    event.content.community.None?
  }

  /** A genesis belongs to the community it names; any other event carries its community. */
  predicate Belongs(event: SignedEvent, community: Id) {
    match event.content.community
    case None => event.id == community
    case Some(id) => id == community
  }

  function Parents(event: SignedEvent): set<Id> {
    set p | p in event.content.parents
  }

  function IdsOf(events: seq<SignedEvent>): set<Id> {
    set e | e in events :: e.id
  }

  /** Every event is filed under its own id. */
  ghost predicate Indexed(events: map<Id, SignedEvent>) {
    forall i :: i in events ==> events[i].id == i
  }

  // ------------------------------------------------------------------ parsing canonical bytes

  predicate Encodable(content: Content) {
    && |content.parents| < 0x1_0000_0000
    && |content.eventType| < 0x1_0000_0000
    && |content.payload| < 0x1_0000_0000
  }

  function TakeId(input: Octets): Option<(Id, Octets)> {
    var (value, rest) :- TakeInt(ID_BYTES, input);
    if IsId(value) then Some((value, rest)) else None
  }

  predicate IsId(value: int) {
    0 <= value < 0x1_0000000000000000_0000000000000000_0000000000000000_0000000000000000
  }

  function TakeIds(count: nat, input: Octets): Option<(seq<Id>, Octets)> {
    if count == 0 then Some(([], input))
    else
      var (id, rest) :- TakeId(input);
      var (ids, rest') :- TakeIds(count - 1, rest);
      Some(([id] + ids, rest'))
  }

  function TakeCommunity(input: Octets): Option<(Option<Id>, Octets)> {
    if input == [] then None
    else if input[0] == 0 then Some((None, input[1..]))
    else if input[0] == 1 then
      var (id, rest) :- TakeId(input[1..]);
      Some((Some(id), rest))
    else None
  }

  function TakeTimestamp(input: Octets): Option<(I64, Octets)> {
    var (raw, rest) :- TakeInt(8, input);
    if raw < 0x8000_0000_0000_0000 then Some((raw, rest))
    else if raw < 0x1_0000_0000_0000_0000 then Some((raw - 0x1_0000_0000_0000_0000, rest))
    else None
  }

  function TakePrefixed(input: Octets): Option<(Octets, Octets)> {
    var (length, rest) :- TakeInt(4, input);
    TakeBytes(length, rest)
  }

  /** Reads one canonical content off the front of `input`, returning what follows it. */
  function ParseBody(input: Octets): Option<(Content, Octets)> {
    var (version, r0) :- TakeInt(2, input);
    var (community, r1) :- TakeCommunity(r0);
    var (count, r2) :- TakeInt(4, r1);
    var (parents, r3) :- TakeIds(count, r2);
    var (timestamp, r4) :- TakeTimestamp(r3);
    var (eventType, r5) :- TakePrefixed(r4);
    var (payload, r6) :- TakePrefixed(r5);
    if version < 0x1_0000
    then Some((Content(version, community, parents, timestamp, eventType, payload), r6))
    else None
  }

  lemma PowersOf256()
    ensures Pow256(2) == 0x1_0000
    ensures Pow256(4) == 0x1_0000_0000
    ensures Pow256(8) == 0x1_0000_0000_0000_0000
    ensures Pow256(32) == 0x1_0000000000000000_0000000000000000_0000000000000000_0000000000000000
  {
    PowersAdd(8, 8);
    PowersAdd(16, 16);
  }

  lemma TakeIdInverts(id: Id, rest: Octets)
    ensures TakeId(IdBytes(id) + rest) == Some((id, rest))
  {
    PowersOf256();
    TakeIntInverts(ID_BYTES, id, rest);
  }

  lemma {:induction false} TakeIdsInverts(ids: seq<Id>, rest: Octets)
    ensures TakeIds(|ids|, ParentBytes(ids) + rest) == Some((ids, rest))
  {
    if ids == [] {
      assert ParentBytes(ids) + rest == rest;
    } else {
      var tail := ParentBytes(ids[1..]) + rest;
      assert ParentBytes(ids) + rest == IdBytes(ids[0]) + tail;
      TakeIdInverts(ids[0], tail);
      TakeIdsInverts(ids[1..], rest);
      assert [ids[0]] + ids[1..] == ids;
    }
  }

  lemma TakeCommunityInverts(community: Option<Id>, rest: Octets)
    ensures TakeCommunity(CommunityBytes(community) + rest) == Some((community, rest))
  {
    match community {
      case None => assert ([0] + rest)[1..] == rest;
      case Some(id) =>
        assert [1] + IdBytes(id) + rest == [1] + (IdBytes(id) + rest);
        assert ([1] + (IdBytes(id) + rest))[1..] == IdBytes(id) + rest;
        TakeIdInverts(id, rest);
    }
  }

  lemma TakeTimestampInverts(timestamp: I64, rest: Octets)
    ensures TakeTimestamp(TimestampBytes(timestamp) + rest) == Some((timestamp, rest))
  {
    PowersOf256();
    TakeIntInverts(8, if timestamp < 0 then timestamp + 0x1_0000_0000_0000_0000 else timestamp, rest);
  }

  lemma TakePrefixedInverts(value: Octets, rest: Octets)
    requires |value| < 0x1_0000_0000
    ensures TakePrefixed(LengthPrefixed(value) + rest) == Some((value, rest))
  {
    PowersOf256();
    assert LengthPrefixed(value) + rest == BigEndian(4, |value|) + (value + rest);
    TakeIntInverts(4, |value|, value + rest);
    TakeBytesInverts(value, rest);
  }

  /** Canonical content is recoverable, whatever bytes follow it: the encoding is prefix-free. */
  lemma CanonicalContentIsRecoverable(content: Content, rest: Octets)
    requires Encodable(content)
    ensures ParseBody(CanonicalBody(content) + rest) == Some((content, rest))
  {
    PowersOf256();
    var r5 := LengthPrefixed(content.payload) + rest;
    var r4 := LengthPrefixed(content.eventType) + r5;
    var r3 := TimestampBytes(content.timestamp) + r4;
    var r2 := ParentBytes(content.parents) + r3;
    var r1 := BigEndian(4, |content.parents|) + r2;
    var r0 := CommunityBytes(content.community) + r1;
    Reassociate(content, rest, r0, r1, r2, r3, r4, r5);
    TakeIntInverts(2, content.version, r0);
    TakeCommunityInverts(content.community, r1);
    TakeIntInverts(4, |content.parents|, r2);
    TakeIdsInverts(content.parents, r3);
    TakeTimestampInverts(content.timestamp, r4);
    TakePrefixedInverts(content.eventType, r5);
    TakePrefixedInverts(content.payload, rest);
  }

  lemma ConcatAssociates(a: Octets, b: Octets, c: Octets)
    ensures (a + b) + c == a + (b + c)
  {
  }

  lemma Reassociate(
    content: Content, rest: Octets, r0: Octets, r1: Octets, r2: Octets, r3: Octets, r4: Octets, r5: Octets)
    requires r5 == LengthPrefixed(content.payload) + rest
    requires r4 == LengthPrefixed(content.eventType) + r5
    requires r3 == TimestampBytes(content.timestamp) + r4
    requires r2 == ParentBytes(content.parents) + r3
    requires r1 == BigEndian(4, |content.parents|) + r2
    requires r0 == CommunityBytes(content.community) + r1
    ensures CanonicalBody(content) + rest == BigEndian(2, content.version) + r0
  {
    var b5 := LengthPrefixed(content.payload);
    var b4 := LengthPrefixed(content.eventType) + b5;
    ConcatAssociates(LengthPrefixed(content.eventType), b5, rest);
    var b3 := TimestampBytes(content.timestamp) + b4;
    ConcatAssociates(TimestampBytes(content.timestamp), b4, rest);
    var b2 := ParentBytes(content.parents) + b3;
    ConcatAssociates(ParentBytes(content.parents), b3, rest);
    var b1 := BigEndian(4, |content.parents|) + b2;
    ConcatAssociates(BigEndian(4, |content.parents|), b2, rest);
    var b0 := CommunityBytes(content.community) + b1;
    ConcatAssociates(CommunityBytes(content.community), b1, rest);
    ConcatAssociates(BigEndian(2, content.version), b0, rest);
  }

  /** The Event ID preimage determines content, key and signature. */
  lemma EventIdPreimageIsInjective(
    content: Content, key: Octets, signature: Octets,
    content': Content, key': Octets, signature': Octets)
    requires Encodable(content) && Encodable(content')
    requires |key| == |key'| == PUBLIC_KEY_LEN
    requires |signature| == |signature'| == SIGNATURE_LEN
    requires EventIdPreimage(content, key, signature) == EventIdPreimage(content', key', signature')
    ensures content == content' && key == key' && signature == signature'
  {
    var header := EventDomain() + ContentDomain();
    var rest, rest' := key + signature, key' + signature';
    PreimageLayout(EventDomain(), ContentDomain(), CanonicalBody(content), key, signature);
    PreimageLayout(EventDomain(), ContentDomain(), CanonicalBody(content'), key', signature');
    SuffixesAgree(header, CanonicalBody(content) + rest, CanonicalBody(content') + rest');
    CanonicalContentIsRecoverable(content, rest);
    CanonicalContentIsRecoverable(content', rest');
    assert rest[..PUBLIC_KEY_LEN] == key && rest[PUBLIC_KEY_LEN..] == signature;
    assert rest'[..PUBLIC_KEY_LEN] == key' && rest'[PUBLIC_KEY_LEN..] == signature';
  }

  lemma PreimageLayout(d: Octets, e: Octets, body: Octets, key: Octets, signature: Octets)
    ensures d + (e + body) + key + signature == (d + e) + (body + (key + signature))
  {
  }

  lemma SuffixesAgree(prefix: Octets, a: Octets, b: Octets)
    requires prefix + a == prefix + b
    ensures a == b
  {
    assert a == (prefix + a)[|prefix|..];
    assert b == (prefix + b)[|prefix|..];
  }

  /** Two valid events with one id are the same event, unless BLAKE3 collides on their preimages. */
  lemma EqualIdsMeanEqualEvents(crypto: Crypto, e: SignedEvent, f: SignedEvent)
    requires ValidEvent(crypto, e) && ValidEvent(crypto, f)
    requires e.id == f.id
    requires
      var x := EventIdPreimage(e.content, e.publicKey, e.signature);
      var y := EventIdPreimage(f.content, f.publicKey, f.signature);
      crypto.hash(x) == crypto.hash(y) ==> x == y
    ensures e == f
  {
    EventIdPreimageIsInjective(
      e.content, e.publicKey, e.signature, f.content, f.publicKey, f.signature);
  }
}
