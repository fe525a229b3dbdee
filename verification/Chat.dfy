/**
 The chat profile's payloads, governance state and authorization rules
 (crates/profile-chat/src/lib.rs).
 */
module Chat {
  import opened Wrappers
  import opened Bytes
  import opened Protocol
  import SignedBytes

  function ProfileId(): Octets {
    Ascii("chatcommons.chat.v2")
  }

  const MAX_HOME_SERVER_ENDPOINTS := 8
  const MAX_HOME_SERVER_ENDPOINT_BYTES := 512
  function HomeServerDomain(): Octets {
    Ascii("chatcommons:home-server-id:v1\0")
  }


  datatype ChatPayload =
    | CommunityCreate(profile: Octets, name: Octets)
    | ChannelCreate(channel: Id, channelName: Octets)
    | MemberInvite(capabilityKey: Octets)
    | MemberAccept(invitation: Id, capabilitySignature: Octets)
    | MemberRemove(removed: Id)
    | MessageCreate(target: Id, text: Octets)
    | AdministratorGrant(granted: Id)
    | AdministratorRevoke(revoked: Id)
    | OwnershipTransfer(newOwner: Id)
    | HomeServerSet(serverKey: Octets, endpoints: seq<Octets>)

  /**
   What the resolver is told about the world: the cryptography, and how events decode. Everything
   about the resolver holds for any decoder; `ChatProfile` gives the one the program uses.
   */
  datatype Profile = Profile(crypto: Crypto, decode: SignedEvent -> Option<ChatPayload>)

  datatype RejectionReason =
    | InvalidPayload
    | MissingParent
    | ParentRejected
    | WrongCommunity
    | NotMember
    | NotAdministrator
    | NotOwner
    | InvalidInvitation
    | MemberNotActive
    | AlreadyAdministrator
    | CannotRemoveOwner
    | UnknownChannel
    | InvalidHomeServer

  datatype HomeServerBinding = HomeServerBinding(
    declaration: Id, serverId: Id, serverKey: Octets, endpoints: seq<Octets>, historyHeads: seq<Id>)

  datatype State = State(
    community: Option<Id>,
    owner: Option<Id>,
    members: set<Id>,
    administrators: set<Id>,
    channels: set<Id>,
    invitations: map<Id, Octets>,
    redeemed: set<Id>,
    homeServer: Option<HomeServerBinding>)

  const EMPTY_STATE := State(None, None, {}, {}, {}, map[], {}, None)

  // ------------------------------------------------------------------ decoding

  function EventTypeOf(payload: ChatPayload): Octets {
    match payload
    case CommunityCreate(_, _) => Ascii("chat.community.create")
    case ChannelCreate(_, _) => Ascii("chat.channel.create")
    case MemberInvite(_) => Ascii("chat.member.invite")
    case MemberAccept(_, _) => Ascii("chat.member.accept")
    case MemberRemove(_) => Ascii("chat.member.remove")
    case MessageCreate(_, _) => Ascii("chat.message.create")
    case AdministratorGrant(_) => Ascii("chat.admin.grant")
    case AdministratorRevoke(_) => Ascii("chat.admin.revoke")
    case OwnershipTransfer(_) => Ascii("chat.ownership.transfer")
    case HomeServerSet(_, _) => Ascii("chat.home-server.set")
  }

  /** The payload, if its bytes parse as JSON, match the event type and name this profile. */
  function DecodeEvent(parsePayload: Octets -> Option<ChatPayload>, event: SignedEvent): Option<ChatPayload> {
    var payload :- parsePayload(event.content.payload);
    if EventTypeOf(payload) != event.content.eventType then None
    else if payload.CommunityCreate? && payload.profile != ProfileId() then None
    else Some(payload)
  }

  /** The chat profile over a cryptography and a JSON parser for payload bytes. */
  function ChatProfile(crypto: Crypto, parsePayload: Octets -> Option<ChatPayload>): Profile {
    Profile(crypto, event => DecodeEvent(parsePayload, event))
  }

  /** An event's type says what kind of payload it decodes to, and only this profile's foundings decode. */
  lemma DecodesByType(crypto: Crypto, parsePayload: Octets -> Option<ChatPayload>, event: SignedEvent)
    ensures var payload := Decode(ChatProfile(crypto, parsePayload), event);
            var kind := event.content.eventType;
            payload.Some? ==>
              && payload == parsePayload(event.content.payload)
              && (payload.value.CommunityCreate? ==> payload.value.profile == Ascii("chatcommons.chat.v2"))
              && (payload.value.CommunityCreate? <==> kind == Ascii("chat.community.create"))
              && (payload.value.ChannelCreate? <==> kind == Ascii("chat.channel.create"))
              && (payload.value.MemberInvite? <==> kind == Ascii("chat.member.invite"))
              && (payload.value.MemberAccept? <==> kind == Ascii("chat.member.accept"))
              && (payload.value.MemberRemove? <==> kind == Ascii("chat.member.remove"))
              && (payload.value.MessageCreate? <==> kind == Ascii("chat.message.create"))
              && (payload.value.AdministratorGrant? <==> kind == Ascii("chat.admin.grant"))
              && (payload.value.AdministratorRevoke? <==> kind == Ascii("chat.admin.revoke"))
              && (payload.value.OwnershipTransfer? <==> kind == Ascii("chat.ownership.transfer"))
              && (payload.value.HomeServerSet? <==> kind == Ascii("chat.home-server.set"))
  {
    TellsApart("chat.member.invite", "chat.member.accept", 12);
    TellsApart("chat.member.invite", "chat.member.remove", 12);
    TellsApart("chat.member.accept", "chat.member.remove", 12);
    TellsApart("chat.channel.create", "chat.message.create", 5);
  }

  function Decode(profile: Profile, event: SignedEvent): Option<ChatPayload> {
    profile.decode(event)
  }

  function Priority(payload: ChatPayload): (p: nat)
    ensures p <= 2
  {
    match payload
    case CommunityCreate(_, _) => 0
    case MemberRemove(_) => 1
    case AdministratorRevoke(_) => 1
    case _ => 2
  }

  // ------------------------------------------------------------------ authorization

  function RequireAdmin(state: State, author: Id): Option<RejectionReason> {
    if author in state.administrators then None else Some(NotAdministrator)
  }

  function RequireOwner(state: State, author: Id): Option<RejectionReason> {
    if state.owner == Some(author) then None else Some(NotOwner)
  }

  /** ASCII, and neither whitespace nor control: exactly the printable range '!' to '~'. */
  predicate PlainByte(b: Byte) {
    33 <= b <= 126
  }

  predicate GoodEndpoint(endpoint: Octets) {
    && 0 < |endpoint| <= MAX_HOME_SERVER_ENDPOINT_BYTES
    && forall i :: 0 <= i < |endpoint| ==> PlainByte(endpoint[i])
  }

  predicate GoodHomeServer(serverKey: Octets, endpoints: seq<Octets>) {
    && |serverKey| == PUBLIC_KEY_LEN
    && 0 < |endpoints| <= MAX_HOME_SERVER_ENDPOINTS
    && (forall i :: 0 <= i < |endpoints| ==> GoodEndpoint(endpoints[i]))
    && (forall i, j :: 0 <= i < j < |endpoints| ==> endpoints[i] != endpoints[j])
  }

  /** The scan over the endpoints with a set of those already seen. */
  method CheckHomeServer(serverKey: Octets, endpoints: seq<Octets>) returns (good: bool)
    ensures good == GoodHomeServer(serverKey, endpoints)
  {
    if |serverKey| != PUBLIC_KEY_LEN || endpoints == [] || |endpoints| > MAX_HOME_SERVER_ENDPOINTS {
      return false;
    }
    var unique: set<Octets> := {};
    for k := 0 to |endpoints|
      invariant unique == set i | 0 <= i < k :: endpoints[i]
      invariant forall i :: 0 <= i < k ==> GoodEndpoint(endpoints[i])
      invariant forall i, j :: 0 <= i < j < k ==> endpoints[i] != endpoints[j]
    {
      if !GoodEndpoint(endpoints[k]) || endpoints[k] in unique {
        return false;
      }
      unique := unique + {endpoints[k]};
    }
    return true;
  }

  /** Why the event may not take effect in `state`; `None` authorizes it. */
  function ContextFault(
    profile: Profile, state: State, event: SignedEvent, payload: ChatPayload, author: Id, accepted: set<Id>)
    : Option<RejectionReason>
  {
    if payload.CommunityCreate? then
      if state.community.None? then None else Some(WrongCommunity)
    else if event.content.community != state.community then Some(WrongCommunity)
    else if !(Parents(event) <= accepted) then Some(ParentRejected)
    else
      match payload
      case ChannelCreate(_, _) => RequireAdmin(state, author)
      case MemberInvite(key) =>
        if RequireAdmin(state, author).Some? then RequireAdmin(state, author)
        else if |key| == PUBLIC_KEY_LEN then None
        else Some(InvalidInvitation)
      case MemberAccept(invitation, signature) =>
        if invitation !in state.invitations then Some(InvalidInvitation)
        else if invitation in state.redeemed || |signature| != SIGNATURE_LEN then Some(InvalidInvitation)
        else if event.content.community.None? then Some(WrongCommunity)
        else if profile.crypto.verify(
          state.invitations[invitation],
          SignedBytes.AcceptanceBytes(event.content.community.value, invitation, author),
          signature) then None
        else Some(InvalidInvitation)
      case MemberRemove(member) =>
        if RequireAdmin(state, author).Some? then RequireAdmin(state, author)
        else if state.owner == Some(member) then Some(CannotRemoveOwner)
        else if member in state.members then None
        else Some(MemberNotActive)
      case MessageCreate(channel, _) =>
        if author !in state.members then Some(NotMember)
        else if channel !in state.channels then Some(UnknownChannel)
        else None
      case AdministratorGrant(member) =>
        if RequireOwner(state, author).Some? then RequireOwner(state, author)
        else if member !in state.members then Some(MemberNotActive)
        else if member in state.administrators then Some(AlreadyAdministrator)
        else None
      case AdministratorRevoke(member) =>
        if RequireOwner(state, author).Some? then RequireOwner(state, author)
        else if state.owner == Some(member) then Some(CannotRemoveOwner)
        else if member in state.administrators then None
        else Some(NotAdministrator)
      case OwnershipTransfer(newOwner) =>
        if RequireOwner(state, author).Some? then RequireOwner(state, author)
        else if newOwner in state.members then None
        else Some(MemberNotActive)
      case HomeServerSet(serverKey, endpoints) =>
        if RequireOwner(state, author).Some? then RequireOwner(state, author)
        else if GoodHomeServer(serverKey, endpoints) then None
        else Some(InvalidHomeServer)
  }

  // ------------------------------------------------------------------ effects

  function Applied(profile: Profile, state: State, event: SignedEvent, payload: ChatPayload, author: Id): State {
    match payload
    case CommunityCreate(_, _) =>
      state.(community := Some(event.id), owner := Some(author),
             members := state.members + {author}, administrators := state.administrators + {author})
    case ChannelCreate(channel, _) => state.(channels := state.channels + {channel})
    case MemberInvite(key) => state.(invitations := state.invitations[event.id := key])
    case MemberAccept(invitation, _) =>
      state.(redeemed := state.redeemed + {invitation}, members := state.members + {author})
    case MemberRemove(member) =>
      state.(members := state.members - {member}, administrators := state.administrators - {member})
    case MessageCreate(_, _) => state
    case AdministratorGrant(member) => state.(administrators := state.administrators + {member})
    case AdministratorRevoke(member) => state.(administrators := state.administrators - {member})
    case OwnershipTransfer(newOwner) =>
      state.(owner := Some(newOwner), administrators := state.administrators + {newOwner})
    case HomeServerSet(serverKey, endpoints) =>
      if |serverKey| == PUBLIC_KEY_LEN then
        state.(homeServer := Some(HomeServerBinding(
          event.id, profile.crypto.hash(HomeServerDomain() + serverKey), serverKey, endpoints,
          event.content.parents)))
      else state
  }

  /** The resolver's working state, updated in place as events are accepted. */
  class LiveState {
    var community: Option<Id>
    var owner: Option<Id>
    var members: set<Id>
    var administrators: set<Id>
    var channels: set<Id>
    var invitations: map<Id, Octets>
    var redeemed: set<Id>
    var homeServer: Option<HomeServerBinding>

    function View(): State
      reads this
    {
      State(community, owner, members, administrators, channels, invitations, redeemed, homeServer)
    }

    constructor ()
      ensures View() == EMPTY_STATE
    {
      community, owner, homeServer := None, None, None;
      members, administrators, channels, redeemed, invitations := {}, {}, {}, {}, map[];
    }

    method Apply(profile: Profile, event: SignedEvent, payload: ChatPayload, author: Id)
      modifies this
      ensures View() == Applied(profile, old(View()), event, payload, author)
    {
      match payload {
        case CommunityCreate(_, _) =>
          community := Some(event.id);
          owner := Some(author);
          members := members + {author};
          administrators := administrators + {author};
        case ChannelCreate(channel, _) =>
          channels := channels + {channel};
        case MemberInvite(key) =>
          invitations := invitations[event.id := key];
        case MemberAccept(invitation, _) =>
          redeemed := redeemed + {invitation};
          members := members + {author};
        case MemberRemove(member) =>
          members := members - {member};
          administrators := administrators - {member};
        case MessageCreate(_, _) =>
        case AdministratorGrant(member) =>
          administrators := administrators + {member};
        case AdministratorRevoke(member) =>
          administrators := administrators - {member};
        case OwnershipTransfer(newOwner) =>
          owner := Some(newOwner);
          administrators := administrators + {newOwner};
        case HomeServerSet(serverKey, endpoints) =>
          if |serverKey| == PUBLIC_KEY_LEN {
            var serverId := profile.crypto.hash(HomeServerDomain() + serverKey);
            homeServer := Some(HomeServerBinding(
              event.id, serverId, serverKey, endpoints, event.content.parents));
          }
      }
    }
  }

  // ------------------------------------------------------------------ replaying a log

  /** Applies a log of events in order. Undecodable events have no effect. */
  function StateAfter(profile: Profile, log: seq<SignedEvent>): State {
    if log == [] then EMPTY_STATE
    else
      var last := log[|log| - 1];
      var before := StateAfter(profile, log[..|log| - 1]);
      match Decode(profile, last)
      case None => before
      case Some(payload) => Applied(profile, before, last, payload, AuthorId(profile.crypto, last))
  }

  /** The event decodes, its parents are in `log`, and the state after `log` authorizes it. */
  predicate Admissible(profile: Profile, log: seq<SignedEvent>, event: SignedEvent) {
    && Decode(profile, event).Some?
    && Parents(event) <= IdsOf(log)
    && ContextFault(profile, StateAfter(profile, log), event, Decode(profile, event).value,
                    AuthorId(profile.crypto, event), IdsOf(log)).None?
  }

  /** Every event of the log was admissible when its turn came. */
  predicate Authorized(profile: Profile, log: seq<SignedEvent>) {
    forall i :: 0 <= i < |log| ==> Admissible(profile, log[..i], log[i])
  }
}
