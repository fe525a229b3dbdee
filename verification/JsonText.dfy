/**
 The compact JSON itself, as bytes, for everything whose size the program limits: the lengths the limits
 are stated on are the lengths of these texts.
 */
module JsonText {
  import opened Wrappers
  import opened Bytes
  import opened Protocol
  import opened Json
  import SyncMessages
  import Frames
  import Network
  import Archives

  // ------------------------------------------------------------------ numbers, arrays and strings

  /** Decimal digits, the most significant first. */
  function NumberText(n: nat): (text: Octets)
    ensures |text| == Digits(n)
  {
    if n < 10 then [48 + n] else NumberText(n / 10) + [48 + n % 10]
  }

  function SignedText(n: int): (text: Octets)
    ensures |text| == SignedJson(n)
  {
    if n < 0 then [45] + NumberText(-n) else NumberText(n)
  }

  /** The texts with commas between them. */
  function Joined(items: seq<Octets>): Octets {
    if items == [] then []
    else if |items| == 1 then items[0]
    else items[0] + [44] + Joined(items[1..])
  }

  function ArrayText(items: seq<Octets>): Octets {
    [91] + Joined(items) + [93]
  }

  function BytesText(bytes: Octets): Octets {
    ArrayText(seq(|bytes|, i requires 0 <= i < |bytes| => NumberText(bytes[i])))
  }

  function IdText(id: Id): Octets {
    BytesText(IdBytes(id))
  }

  function IdsText(ids: seq<Id>): Octets {
    ArrayText(seq(|ids|, i requires 0 <= i < |ids| => IdText(ids[i])))
  }

  function OptionalIdText(id: Option<Id>): Octets {
    match id
    case None => Ascii("null")
    case Some(value) => IdText(value)
  }

  function HexDigit(n: nat): Byte
    requires n < 16
  {
    if n < 10 then 48 + n else 87 + n
  }

  /** A character of a string: escaped if it is a quote, a backslash or a control character. */
  function CharText(b: Byte): (text: Octets)
    ensures |text| == CharJson(b)
  {
    if b == 34 || b == 92 then [92, b]
    else if b == 8 then Ascii("\\b")
    else if b == 9 then Ascii("\\t")
    else if b == 10 then Ascii("\\n")
    else if b == 12 then Ascii("\\f")
    else if b == 13 then Ascii("\\r")
    else if b < 32 then [92, 117, 48, 48, HexDigit(b / 16), HexDigit(b % 16)]
    else [b]
  }

  function CharsText(text: Octets): (r: Octets)
    ensures |r| == CharsJson(text)
  {
    if text == [] then [] else CharText(text[0]) + CharsText(text[1..])
  }

  function StringText(text: Octets): Octets {
    [34] + CharsText(text) + [34]
  }

  // ------------------------------------------------------------------ events

  function ContentText(content: Content): Octets {
    Ascii("{\"protocol_version\":") + NumberText(content.version)
    + (Ascii(",\"community_id\":") + OptionalIdText(content.community))
    + (Ascii(",\"parents\":") + IdsText(content.parents))
    + (Ascii(",\"timestamp_ms\":") + SignedText(content.timestamp))
    + (Ascii(",\"event_type\":") + StringText(content.eventType))
    + (Ascii(",\"payload\":") + BytesText(content.payload)) + Ascii("}")
  }

  function EventText(event: SignedEvent): Octets {
    Ascii("{\"content\":") + ContentText(event.content)
    + (Ascii(",\"public_key\":") + BytesText(event.publicKey))
    + (Ascii(",\"signature\":") + BytesText(event.signature))
    + (Ascii(",\"event_id\":") + IdText(event.id)) + Ascii("}")
  }

  function EventsText(events: seq<SignedEvent>): Octets {
    ArrayText(seq(|events|, i requires 0 <= i < |events| => EventText(events[i])))
  }

  // ------------------------------------------------------------------ lengths

  lemma {:induction false} BytesTextLength(bytes: Octets)
    ensures |BytesText(bytes)| == BytesJson(bytes)
  {
    if bytes != [] {
      BytesTextLength(bytes[1..]);
      var items := seq(|bytes|, i requires 0 <= i < |bytes| => NumberText(bytes[i]));
      var rest := bytes[1..];
      assert items[1..] == seq(|rest|, i requires 0 <= i < |rest| => NumberText(rest[i]));
    }
  }

  lemma IdTextLength(id: Id)
    ensures |IdText(id)| == IdJson(id)
  {
    BytesTextLength(IdBytes(id));
  }

  lemma {:induction false} IdsTextLength(ids: seq<Id>)
    ensures |IdsText(ids)| == IdsJson(ids)
  {
    if ids != [] {
      IdTextLength(ids[0]);
      IdsTextLength(ids[1..]);
      var items := seq(|ids|, i requires 0 <= i < |ids| => IdText(ids[i]));
      var rest := ids[1..];
      assert items[1..] == seq(|rest|, i requires 0 <= i < |rest| => IdText(rest[i]));
    }
  }

  lemma ContentTextLength(content: Content)
    ensures |ContentText(content)|
            == 89 + Digits(content.version) + OptionalIdJson(content.community) + IdsJson(content.parents)
               + SignedJson(content.timestamp) + (2 + CharsJson(content.eventType)) + BytesJson(content.payload)
  {
    if content.community.Some? {
      IdTextLength(content.community.value);
    }
    IdsTextLength(content.parents);
    BytesTextLength(content.payload);
  }

  /** The size of an event is the length of its JSON. */
  lemma EventTextLength(event: SignedEvent)
    ensures |EventText(event)| == EventJson(event)
  {
    ContentTextLength(event.content);
    BytesTextLength(event.publicKey);
    BytesTextLength(event.signature);
    IdTextLength(event.id);
  }

  lemma {:induction false} ItemsLength(items: seq<Octets>, events: seq<SignedEvent>)
    requires |items| == |events| && forall i :: 0 <= i < |items| ==> |items[i]| == EventJson(events[i])
    ensures |ArrayText(items)| == EventsJson(events)
  {
    if events != [] {
      ItemsLength(items[1..], events[1..]);
    }
  }

  lemma EventsTextLength(events: seq<SignedEvent>)
    ensures |EventsText(events)| == EventsJson(events)
  {
    var items := seq(|events|, i requires 0 <= i < |events| => EventText(events[i]));
    forall i | 0 <= i < |items|
      ensures |items[i]| == EventJson(events[i])
    {
      EventTextLength(events[i]);
    }
    ItemsLength(items, events);
  }

  // ------------------------------------------------------------------ messages, frames and archives

  function VersionsText(versions: seq<U16>): Octets {
    ArrayText(seq(|versions|, i requires 0 <= i < |versions| => NumberText(versions[i])))
  }

  lemma {:induction false} VersionsTextLength(versions: seq<U16>)
    ensures |VersionsText(versions)| == 2 + SyncMessages.VersionItemsJson(versions)
  {
    if versions != [] {
      VersionsTextLength(versions[1..]);
      var items, rest := seq(|versions|, i requires 0 <= i < |versions| => NumberText(versions[i])), versions[1..];
      assert items[1..] == seq(|rest|, i requires 0 <= i < |rest| => NumberText(rest[i]));
    }
  }

  function CommunityText(name: string, community: Id): Octets {
    Ascii("{\"") + Ascii(name) + Ascii("\":{\"community_id\":") + IdText(community)
  }

  function MessageText(message: SyncMessages.SyncMessage): Octets {
    match message
    case Hello(version, versions, community) =>
      Ascii("{\"Hello\":{\"sync_version\":") + NumberText(version)
      + (Ascii(",\"protocol_versions\":") + VersionsText(versions))
      + (Ascii(",\"community_id\":") + IdText(community)) + Ascii("}}")
    case Heads(community, ids) =>
      CommunityText("Heads", community) + (Ascii(",\"event_ids\":") + IdsText(ids)) + Ascii("}}")
    case Want(community, ids) =>
      CommunityText("Want", community) + (Ascii(",\"event_ids\":") + IdsText(ids)) + Ascii("}}")
    case Deliver(community, events) =>
      CommunityText("Events", community) + (Ascii(",\"events\":") + EventsText(events)) + Ascii("}}")
  }

  /** The size of a message is the length of its JSON. */
  lemma MessageTextLength(message: SyncMessages.SyncMessage)
    ensures |MessageText(message)| == SyncMessages.MessageJson(message)
  {
    IdTextLength(message.community);
    match message {
      case Hello(_, versions, _) => VersionsTextLength(versions);
      case Heads(_, ids) => IdsTextLength(ids);
      case Want(_, ids) => IdsTextLength(ids);
      case Deliver(_, events) => EventsTextLength(events);
    }
  }

  /** A frame with synchronization messages. */
  function FrameText(messages: seq<SyncMessages.SyncMessage>): Octets {
    Ascii("{\"Sync\":{\"messages\":")
    + ArrayText(seq(|messages|, i requires 0 <= i < |messages| => MessageText(messages[i]))) + Ascii("}}")
  }

  lemma {:induction false} MessagesLength(items: seq<Octets>, messages: seq<SyncMessages.SyncMessage>)
    requires |items| == |messages|
    requires forall i :: 0 <= i < |items| ==> |items[i]| == SyncMessages.MessageJson(messages[i])
    ensures |ArrayText(items)| == 2 + Frames.MessageItemsJson(messages)
  {
    if messages != [] {
      MessagesLength(items[1..], messages[1..]);
    }
  }

  /** The size of a frame is the length of its JSON. */
  lemma FrameTextLength(messages: seq<SyncMessages.SyncMessage>)
    ensures |FrameText(messages)| == Frames.FrameJson(messages)
  {
    var items := seq(|messages|, i requires 0 <= i < |messages| => MessageText(messages[i]));
    forall i | 0 <= i < |items|
      ensures |items[i]| == SyncMessages.MessageJson(messages[i])
    {
      MessageTextLength(messages[i]);
    }
    MessagesLength(items, messages);
  }

  /** The disclosure of an invitation's ancestry. */
  function AncestryText(invitation: Id, events: seq<SignedEvent>): Octets {
    Ascii("{\"BootstrapAncestry\":{\"invitation\":") + IdText(invitation)
    + (Ascii(",\"events\":") + EventsText(events)) + Ascii("}}")
  }

  /** The size of a disclosure is the length of its JSON. */
  lemma AncestryTextLength(invitation: Id, events: seq<SignedEvent>)
    ensures |AncestryText(invitation, events)| == Network.AncestryJson(invitation, events)
  {
    IdTextLength(invitation);
    EventsTextLength(events);
  }

  function ArchiveText(archive: Archives.Archive): Octets {
    Ascii("{\"version\":") + NumberText(archive.version)
    + (Ascii(",\"community_id\":") + IdText(archive.community))
    + (Ascii(",\"events\":") + EventsText(archive.events)) + Ascii("}")
  }

  /** The size of an archive is the length of its JSON. */
  lemma ArchiveTextLength(archive: Archives.Archive)
    ensures |ArchiveText(archive)| == Archives.ArchiveJson(archive)
  {
    IdTextLength(archive.community);
    EventsTextLength(archive.events);
  }
}
