/**
 A community in which an invitation has any number of ancestors: its founder issues one invitation after
 the other. All of them are accepted and stay active, so beyond 256 a refresh fails.
 */
module LongAncestry {
  import opened Wrappers
  import opened Bytes
  import opened Protocol
  import opened Ordering
  import opened Chat
  import opened DecisionOrder
  import opened Resolver
  import opened ResolverTheorems
  import opened Authoring
  import opened Samples
  import Closure

  function FoundingKind(): (kind: Octets)
    ensures |kind| == 21
  {
    Ascii("chat.community.create")
  }

  function InvitingKind(): (kind: Octets)
    ensures |kind| == 18
  {
    Ascii("chat.member.invite")
  }

  const MAX_LINK_BYTES := 65_000

  /**
   A parser that goes by size: an empty payload is a founding, one of up to 65,000 bytes an invitation,
   and a larger one an acceptance of the first invitation.
   */
  function SampleParser(payload: Octets): Option<ChatPayload> {
    Some(if payload == [] then CommunityCreate(ProfileId(), [])
         else if |payload| <= MAX_LINK_BYTES then MemberInvite(Zeros(PUBLIC_KEY_LEN))
         else MemberAccept(IdAt(0, 1), Zeros(SIGNATURE_LEN)))
  }

  function SampleProfile(): Profile {
    ChatProfile(SampleCrypto(), payload => SampleParser(payload))
  }

  function IdAt(base: nat, k: nat): Id
    requires base + k <= MAX_LINK_BYTES
  {
    if k == 0 then SampleId(true, 0, 21, 0) else SampleId(false, 1, 18, base + k)
  }

  /** The founding, then invitations with payloads above `base` bytes, each on top of the one before. */
  function Link(base: nat, k: nat): SignedEvent
    requires base + k <= MAX_LINK_BYTES
  {
    if k == 0 then SampleEvent(0, None, [], FoundingKind(), 0)
    else SampleEvent(0, Some(IdAt(base, 0)), [IdAt(base, k - 1)], InvitingKind(), base + k)
  }

  lemma LinkIsValid(base: nat, k: nat)
    requires base + k <= MAX_LINK_BYTES
    ensures ValidEvent(SampleCrypto(), Link(base, k)) && Link(base, k).id == IdAt(base, k)
    ensures Belongs(Link(base, k), IdAt(base, 0))
    ensures Parents(Link(base, k)) == if k == 0 then {} else {IdAt(base, k - 1)}
    ensures AuthorId(SampleCrypto(), Link(base, k)) == SampleUser(0)
    ensures IsGenesis(Link(base, k)) <==> k == 0
  {
    if k == 0 {
      SampleIsValid(0, None, [], FoundingKind(), 0);
    } else {
      InvitationIsValid(IdAt(base, 0), IdAt(base, k - 1), base + k);
    }
  }

  lemma InvitationIsValid(community: Id, parent: Id, size: nat)
    requires size <= MAX_LINK_BYTES
    ensures var event := SampleEvent(0, Some(community), [parent], InvitingKind(), size);
            && ValidEvent(SampleCrypto(), event) && event.id == SampleId(false, 1, 18, size)
            && Belongs(event, community) && Parents(event) == {parent}
            && AuthorId(SampleCrypto(), event) == SampleUser(0) && !IsGenesis(event)
  {
    SampleIsValid(0, Some(community), [parent], InvitingKind(), size);
  }

  lemma LinkDecodes(base: nat, k: nat)
    requires base + k <= MAX_LINK_BYTES
    ensures Decode(SampleProfile(), Link(base, k))
            == Some(if k == 0 then CommunityCreate(ProfileId(), []) else MemberInvite(Zeros(PUBLIC_KEY_LEN)))
  {
    assert Zeros(0) == [];
    assert k > 0 ==> Zeros(base + k) != [];
  }

  lemma IdsGrow(base: nat, k: nat, n: nat)
    requires k < n && base + n <= MAX_LINK_BYTES
    ensures IdAt(base, k) < IdAt(base, n)
  {
  }

  // ------------------------------------------------------------------ the chain

  /** `s` holds the first `n` links, and `order` lists their ids. */
  ghost predicate Links(base: nat, n: nat, s: Candidates, order: seq<Id>)
    requires base + n <= MAX_LINK_BYTES
  {
    && Indexed(s) && |order| == n && |s| == n && s.Keys == Elements(order)
    && forall k: nat :: k < n ==> Placed(base, s, order, k)
  }

  ghost predicate Placed(base: nat, s: Candidates, order: seq<Id>, k: nat) {
    && base + k <= MAX_LINK_BYTES && k < |order|
    && order[k] == IdAt(base, k) && IdAt(base, k) in s && s[IdAt(base, k)] == Link(base, k)
  }

  /** They have their parents, and the last is the only head. */
  ghost predicate Chained(base: nat, n: nat, s: Candidates)
    requires base + n <= MAX_LINK_BYTES
  {
    Closure.Grounded(s, s.Keys) && Heads(s) == if n == 0 then {} else {IdAt(base, n - 1)}
  }

  /** The founder administers the community, and every link but the first is an open invitation. */
  ghost predicate Inviting(base: nat, n: nat, state: State)
    requires base + n <= MAX_LINK_BYTES
  {
    && state.community == (if n == 0 then None else Some(IdAt(base, 0)))
    && (n > 0 ==> SampleUser(0) in state.administrators)
    && state.redeemed == {}
    && forall k :: 1 <= k < n ==>
         IdAt(base, k) in state.invitations && state.invitations[IdAt(base, k)] == Zeros(PUBLIC_KEY_LEN)
  }

  lemma LinksGrow(base: nat, n: nat, s: Candidates, order: seq<Id>)
    requires base + n < MAX_LINK_BYTES && Links(base, n, s, order)
    ensures IdAt(base, n) !in s && Link(base, n).id == IdAt(base, n)
    ensures Links(base, n + 1, With(s, Link(base, n)), order + [IdAt(base, n)])
  {
    LinkIsValid(base, n);
    NotYet(base, n, s, order);
    OneMoreKey(s, order, Link(base, n));
    PlacesGrow(base, n, s, order, Link(base, n));
  }

  lemma PlacesGrow(base: nat, n: nat, s: Candidates, order: seq<Id>, event: SignedEvent)
    requires base + n < MAX_LINK_BYTES && |order| == n
    requires event == Link(base, n) && event.id == IdAt(base, n)
    requires forall k: nat :: k < n ==> Placed(base, s, order, k)
    ensures forall k: nat :: k < n + 1 ==> Placed(base, With(s, event), order + [event.id], k)
  {
    forall k: nat | k < n + 1
      ensures Placed(base, With(s, event), order + [event.id], k)
    {
      if k < n {
        OldPlaceStays(base, n, s, order, k, event);
      } else {
        PlaceTaken(base, s, order, event);
      }
    }
  }

  lemma OneMoreKey(s: Candidates, order: seq<Id>, event: SignedEvent)
    requires Indexed(s) && s.Keys == Elements(order) && event.id !in s
    ensures var t := With(s, event);
            Indexed(t) && t.Keys == Elements(order + [event.id]) && |t| == |s| + 1
  {
    var t := With(s, event);
    assert t.Keys == s.Keys + {event.id};
    assert Elements(order + [event.id]) == Elements(order) + {event.id};
    assert |t.Keys| == |s.Keys| + 1;
  }

  lemma OldPlaceStays(base: nat, n: nat, s: Candidates, order: seq<Id>, k: nat, event: SignedEvent)
    requires Placed(base, s, order, k) && k < n && base + n <= MAX_LINK_BYTES && event.id == IdAt(base, n)
    ensures Placed(base, With(s, event), order + [event.id], k)
  {
    IdsGrow(base, k, n);
    PlaceStays(base, s, order, k, event);
  }

  lemma PlaceTaken(base: nat, s: Candidates, order: seq<Id>, event: SignedEvent)
    requires base + |order| <= MAX_LINK_BYTES
    requires event == Link(base, |order|) && event.id == IdAt(base, |order|)
    ensures Placed(base, With(s, event), order + [event.id], |order|)
  {
  }

  lemma PlaceStays(base: nat, s: Candidates, order: seq<Id>, k: nat, event: SignedEvent)
    requires Placed(base, s, order, k) && event.id != IdAt(base, k)
    ensures Placed(base, With(s, event), order + [event.id], k)
  {
  }

  lemma NotYet(base: nat, n: nat, s: Candidates, order: seq<Id>)
    requires base + n < MAX_LINK_BYTES && Links(base, n, s, order)
    ensures IdAt(base, n) !in s
  {
    forall k: nat | k < n
      ensures order[k] != IdAt(base, n)
    {
      assert Placed(base, s, order, k);
      IdsGrow(base, k, n);
    }
  }

  lemma ChainGrows(base: nat, n: nat, s: Candidates)
    requires base + n < MAX_LINK_BYTES && Chained(base, n, s) && Link(base, n).id == IdAt(base, n)
    requires IdAt(base, n) !in s
    ensures Chained(base, n + 1, With(s, Link(base, n))) && Parents(Link(base, n)) == Heads(s)
  {
    LinkIsValid(base, n);
    AuthoredIsOnlyHead(s, Link(base, n));
    OneMoreLink(s, Link(base, n));
  }

  lemma OneMoreLink(s: Candidates, event: SignedEvent)
    requires Closure.Grounded(s, s.Keys) && event.id !in s && Parents(event) <= s.Keys
    ensures Closure.Grounded(With(s, event), With(s, event).Keys)
  {
    var t := With(s, event);
    Closure.GroundedTransfers(s, t, s.Keys);
    Closure.GroundedExtends(t, s.Keys, {event.id});
    assert s.Keys + {event.id} == t.Keys;
  }

  // ------------------------------------------------------------------ its resolution

  lemma NextIsAdmissible(base: nat, n: nat, log: seq<SignedEvent>)
    requires base + n < MAX_LINK_BYTES && Inviting(base, n, StateAfter(SampleProfile(), log))
    requires Parents(Link(base, n)) <= IdsOf(log)
    ensures Admissible(SampleProfile(), log, Link(base, n))
  {
    LinkIsValid(base, n);
    LinkDecodes(base, n);
    NextIsAuthorized(base, n, StateAfter(SampleProfile(), log), Link(base, n), IdsOf(log));
  }

  lemma NextIsAuthorized(base: nat, n: nat, state: State, event: SignedEvent, accepted: set<Id>)
    requires base + n < MAX_LINK_BYTES && Inviting(base, n, state) && Parents(event) <= accepted
    requires event.content.community == if n == 0 then None else Some(IdAt(base, 0))
    ensures var payload := if n == 0 then CommunityCreate(ProfileId(), []) else MemberInvite(Zeros(PUBLIC_KEY_LEN));
            ContextFault(SampleProfile(), state, event, payload, SampleUser(0), accepted).None?
  {
  }

  lemma NextState(base: nat, n: nat, log: seq<SignedEvent>)
    requires base + n < MAX_LINK_BYTES && Inviting(base, n, StateAfter(SampleProfile(), log))
    ensures Inviting(base, n + 1, StateAfter(SampleProfile(), log + [Link(base, n)]))
  {
    LinkIsValid(base, n);
    LinkDecodes(base, n);
    assert (log + [Link(base, n)])[..|log|] == log;
    StateGrows(base, n, StateAfter(SampleProfile(), log), Link(base, n));
  }

  lemma StateGrows(base: nat, n: nat, state: State, event: SignedEvent)
    requires base + n < MAX_LINK_BYTES && Inviting(base, n, state) && event.id == IdAt(base, n)
    ensures var payload := if n == 0 then CommunityCreate(ProfileId(), []) else MemberInvite(Zeros(PUBLIC_KEY_LEN));
            Inviting(base, n + 1, Applied(SampleProfile(), state, event, payload, SampleUser(0)))
  {
    forall k | 1 <= k < n
      ensures IdAt(base, k) != IdAt(base, n)
    {
      IdsGrow(base, k, n);
    }
  }

  /** The chain is accepted whole, in order. */
  ghost predicate Accepted(base: nat, n: nat, s: Candidates, order: seq<Id>)
    requires base + n <= MAX_LINK_BYTES
  {
    && IsResolution(SampleProfile(), s, order) && AllCandidates(s, order)
    && Inviting(base, n, StateAfter(SampleProfile(), Log(s, order)))
  }

  lemma AcceptedGrows(base: nat, n: nat, s: Candidates, order: seq<Id>)
    requires base + n < MAX_LINK_BYTES && Links(base, n, s, order) && Chained(base, n, s) && Accepted(base, n, s, order)
    requires Link(base, n).id == IdAt(base, n) && IdAt(base, n) !in s && Parents(Link(base, n)) == Heads(s)
    ensures Accepted(base, n + 1, With(s, Link(base, n)), order + [IdAt(base, n)])
  {
    HeadsAreListed(base, n, s, order);
    LogIds(s, order);
    NextIsAdmissible(base, n, Log(s, order));
    AuthoringExtends(SampleProfile(), s, Link(base, n), order);
    NextState(base, n, Log(s, order));
    LogGrows(s, Link(base, n), order);
  }

  lemma HeadsAreListed(base: nat, n: nat, s: Candidates, order: seq<Id>)
    requires base + n <= MAX_LINK_BYTES && Links(base, n, s, order)
    ensures Heads(s) <= Elements(order)
  {
  }

  lemma LogGrows(s: Candidates, event: SignedEvent, order: seq<Id>)
    requires AllCandidates(s, order) && event.id !in s
    ensures AllCandidates(With(s, event), order + [event.id])
    ensures Log(With(s, event), order + [event.id]) == Log(s, order) + [event]
  {
  }

  lemma {:induction false} Build(base: nat, n: nat) returns (s: Candidates, order: seq<Id>)
    requires base + n <= MAX_LINK_BYTES
    ensures Links(base, n, s, order) && Chained(base, n, s) && Accepted(base, n, s, order)
  {
    if n == 0 {
      s, order := map[], [];
      EmptyChain(base);
    } else {
      var t, shorter := Build(base, n - 1);
      s, order := BuildOn(base, n - 1, n, t, shorter);
    }
  }

  lemma BuildOn(base: nat, n: nat, m: nat, t: Candidates, shorter: seq<Id>)
    returns (s: Candidates, order: seq<Id>)
    requires base + n < MAX_LINK_BYTES && m == n + 1
    requires Links(base, n, t, shorter) && Chained(base, n, t) && Accepted(base, n, t, shorter)
    ensures Links(base, m, s, order) && Chained(base, m, s) && Accepted(base, m, s, order)
  {
    s, order := With(t, Link(base, n)), shorter + [IdAt(base, n)];
    LinksGrow(base, n, t, shorter);
    ChainGrows(base, n, t);
    AcceptedGrows(base, n, t, shorter);
  }

  lemma EmptyChain(base: nat)
    requires base <= MAX_LINK_BYTES
    ensures Links(base, 0, map[], []) && Chained(base, 0, map[]) && Accepted(base, 0, map[], [])
  {
    var none: set<Id> := {};
    var nothing: Candidates := map[];
    Closure.NothingIsGrounded(nothing);
    assert nothing.Keys == none;
    assert Elements<Id>([]) == none;
  }
}
