/**
 Concrete valid events, for showing that a situation can arise. The sample cryptography accepts every
 signature and hashes to four times the length of its input, plus the first byte if that is below four,
 so that events of different sizes, and users with different keys, have different ids.
 */
module Samples {
  import opened Wrappers
  import opened Bytes
  import opened Protocol

  predicate HashableLength(n: nat) {
    4 * n + 3 < 0x1_0000000000000000_0000000000000000_0000000000000000_0000000000000000
  }

  function SampleHash(bytes: Octets): Id {
    if !HashableLength(|bytes|) then 0
    else 4 * |bytes| + if bytes != [] && bytes[0] < 4 then bytes[0] else 0
  }

  function SampleCrypto(): Crypto {
    Crypto(bytes => SampleHash(bytes), (_, _, _) => true)
  }

  /** The key that starts with `user` and goes on with `device`. */
  function SampleKey(user: Byte, device: Byte): (key: Octets)
    ensures |key| == PUBLIC_KEY_LEN && key[0] == user && key[1] == device
  {
    [user, device] + seq(PUBLIC_KEY_LEN - 2, _ => 0)
  }

  function Zeros(n: nat): (bytes: Octets)
    ensures |bytes| == n
  {
    seq(n, _ => 0)
  }

  /** An event whose payload has `size` bytes. */
  function SampleEvent(user: Byte, community: Option<Id>, parents: seq<Id>, kind: Octets, size: nat): SignedEvent {
    var content := Content(PROTOCOL_VERSION, community, parents, 0, kind, Zeros(size));
    var key, signature := SampleKey(user, 0), Zeros(SIGNATURE_LEN);
    SignedEvent(content, key, signature, SampleHash(EventIdPreimage(content, key, signature)))
  }

  /** The id of a sample event. */
  function SampleId(genesis: bool, parents: nat, kind: nat, size: nat): nat {
    4 * (162 + (if genesis then 1 else 33) + 32 * parents + kind + size)
  }

  lemma PreimageLength(content: Content, key: Octets, signature: Octets)
    requires |key| == PUBLIC_KEY_LEN && |signature| == SIGNATURE_LEN
    ensures |EventIdPreimage(content, key, signature)|
            == 162 + (if content.community.None? then 1 else 33) + 32 * |content.parents|
               + |content.eventType| + |content.payload|
    ensures EventIdPreimage(content, key, signature)[0] == 99
  {
    assert EventDomain()[0] == 99;
  }

  /** Sample events within the limits are valid, and their ids tell them apart by size. */
  lemma SampleIsValid(user: Byte, community: Option<Id>, parents: seq<Id>, kind: Octets, size: nat)
    requires 0 < |kind| <= MAX_EVENT_TYPE_BYTES && size <= MAX_PAYLOAD_BYTES
    requires StrictlySorted(parents) && |parents| <= MAX_PARENTS && (community.None? <==> parents == [])
    ensures ValidEvent(SampleCrypto(), SampleEvent(user, community, parents, kind, size))
    ensures SampleEvent(user, community, parents, kind, size).id == SampleId(community.None?, |parents|, |kind|, size)
    ensures AuthorId(SampleCrypto(), SampleEvent(user, community, parents, kind, size)) == SampleUser(user)
  {
    var event := SampleEvent(user, community, parents, kind, size);
    PreimageLength(event.content, event.publicKey, event.signature);
  }

  /** The user id of a sample key. */
  function SampleUser(user: Byte): Id {
    if user < 4 then 128 + user else 128
  }
}
