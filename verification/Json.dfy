/**
 Lengths of the compact JSON that serde_json writes. Byte arrays and identifiers are arrays of
 decimal numbers, so sizes depend on the data; the size limits are stated on these lengths.
 */
module Json {
  import opened Wrappers
  import opened Bytes
  import opened Protocol

  const MAX_NETWORK_FRAME_BYTES := 1024 * 1024

  function Digits(n: nat): (d: nat)
    ensures 1 <= d
  {
    if n < 10 then 1 else 1 + Digits(n / 10)
  }

  function Pow10(k: nat): (p: nat)
    ensures 1 <= p
  {
    if k == 0 then 1 else 10 * Pow10(k - 1)
  }

  lemma {:induction false} DigitsBound(n: nat, k: nat)
    requires 0 < k && n < Pow10(k)
    ensures Digits(n) <= k
  {
    if n >= 10 {
      assert k > 1;
      DigitsBound(n / 10, k - 1);
    }
  }

  function SignedJson(n: int): nat {
    if n < 0 then 1 + Digits(-n) else Digits(n)
  }

  /** The items of an array, each followed by a comma except the last. */
  function ByteItemsJson(bytes: Octets): nat {
    if bytes == [] then 0
    else Digits(bytes[0]) + (if |bytes| > 1 then 1 else 0) + ByteItemsJson(bytes[1..])
  }

  function BytesJson(bytes: Octets): nat {
    2 + ByteItemsJson(bytes)
  }

  function IdJson(id: Id): nat {
    BytesJson(IdBytes(id))
  }

  function IdItemsJson(ids: seq<Id>): nat {
    if ids == [] then 0
    else IdJson(ids[0]) + (if |ids| > 1 then 1 else 0) + IdItemsJson(ids[1..])
  }

  function IdsJson(ids: seq<Id>): nat {
    2 + IdItemsJson(ids)
  }

  function OptionalIdJson(id: Option<Id>): nat {
    match id
    case None => 4
    case Some(value) => IdJson(value)
  }

  /** Quotes, backslashes and the short control escapes take two characters, other controls six. */
  function CharJson(b: Byte): nat {
    if b == 34 || b == 92 || b == 8 || b == 9 || b == 10 || b == 12 || b == 13 then 2
    else if b < 32 then 6
    else 1
  }

  function CharsJson(text: Octets): nat {
    if text == [] then 0 else CharJson(text[0]) + CharsJson(text[1..])
  }

  /** {"content":{"protocol_version":..,"community_id":..,"parents":..,"timestamp_ms":..,
      "event_type":"..","payload":..},"public_key":..,"signature":..,"event_id":..} */
  const EVENT_FRAME := 140

  function EventJson(event: SignedEvent): nat {
    var c := event.content;
    EVENT_FRAME + Digits(c.version) + OptionalIdJson(c.community) + IdsJson(c.parents)
    + SignedJson(c.timestamp) + (2 + CharsJson(c.eventType)) + BytesJson(c.payload)
    + BytesJson(event.publicKey) + BytesJson(event.signature) + IdJson(event.id)
  }

  function EventItemsJson(events: seq<SignedEvent>): nat {
    if events == [] then 0
    else EventJson(events[0]) + (if |events| > 1 then 1 else 0) + EventItemsJson(events[1..])
  }

  function EventsJson(events: seq<SignedEvent>): nat {
    2 + EventItemsJson(events)
  }

  // ------------------------------------------------------------------ bounds

  lemma {:induction false} BytesJsonBound(bytes: Octets)
    ensures BytesJson(bytes) <= 2 + 4 * |bytes|
  {
    if bytes != [] {
      BytesJsonBound(bytes[1..]);
      assert Pow10(3) == 1000;
      DigitsBound(bytes[0], 3);
    }
  }

  /** Every byte takes a digit and a separator at least. */
  lemma {:induction false} BytesJsonAtLeast(bytes: Octets)
    ensures BytesJson(bytes) >= 2 * |bytes|
  {
    if bytes != [] {
      BytesJsonAtLeast(bytes[1..]);
    }
  }

  lemma IdJsonBound(id: Id)
    ensures IdJson(id) <= 130
  {
    BytesJsonBound(IdBytes(id));
  }

  lemma {:induction false} IdsJsonBound(ids: seq<Id>)
    ensures IdsJson(ids) <= 2 + 131 * |ids|
  {
    if ids != [] {
      IdJsonBound(ids[0]);
      IdsJsonBound(ids[1..]);
    }
  }

  lemma {:induction false} CharsJsonBound(text: Octets)
    ensures CharsJson(text) <= 6 * |text|
  {
    if text != [] {
      CharsJsonBound(text[1..]);
    }
  }

  lemma TimestampJsonBound(timestamp: I64)
    ensures SignedJson(timestamp) <= 20
  {
    assert Pow10(10) == 10_000_000_000;
    assert Pow10(19) == 10_000_000_000_000_000_000;
    var t: int := timestamp;
    DigitsBound(if t < 0 then -t else t, 19);
  }

  /** A valid event's JSON stays far below the 512 KiB message limit. */
  lemma ValidEventJsonBound(crypto: Crypto, event: SignedEvent)
    requires ValidEvent(crypto, event)
    ensures EventJson(event) <= 268_000
  {
    var c := event.content;
    assert Pow10(5) == 100_000;
    DigitsBound(c.version, 5);
    if c.community.Some? {
      IdJsonBound(c.community.value);
    }
    IdsJsonBound(c.parents);
    TimestampJsonBound(c.timestamp);
    CharsJsonBound(c.eventType);
    BytesJsonBound(c.payload);
    BytesJsonBound(event.publicKey);
    BytesJsonBound(event.signature);
    IdJsonBound(event.id);
  }
}
