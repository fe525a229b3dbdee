/** Two users who accept the same invitation. */
module RivalSample {
  import opened Wrappers
  import opened Bytes
  import opened Protocol
  import opened Ordering
  import opened Chat
  import opened Resolver
  import opened Authoring
  import opened Samples
  import opened LongAncestry
  import opened Rivals
  import Closure
  import Governance

  function AcceptingKind(): (kind: Octets)
    ensures |kind| == 18
  {
    Ascii("chat.member.accept")
  }

  /** An acceptance of the first invitation. */
  function Acceptance(user: Byte, size: nat): SignedEvent {
    SampleEvent(user, Some(IdAt(0, 0)), [IdAt(0, 1)], AcceptingKind(), size)
  }

  lemma AcceptanceIsValid(user: Byte, size: nat)
    requires MAX_LINK_BYTES < size <= MAX_PAYLOAD_BYTES
    ensures ValidEvent(SampleCrypto(), Acceptance(user, size))
    ensures Acceptance(user, size).id == SampleId(false, 1, 18, size)
    ensures Parents(Acceptance(user, size)) == {IdAt(0, 1)}
    ensures AuthorId(SampleCrypto(), Acceptance(user, size)) == SampleUser(user)
  {
    SampleIsValid(user, Some(IdAt(0, 0)), [IdAt(0, 1)], AcceptingKind(), size);
  }

  lemma AcceptanceDecodes(user: Byte, size: nat)
    requires MAX_LINK_BYTES < size
    ensures Decode(SampleProfile(), Acceptance(user, size)) == Some(MemberAccept(IdAt(0, 1), Zeros(SIGNATURE_LEN)))
  {
    assert |Zeros(size)| == size;
  }

  lemma AcceptanceIsAdmissible(user: Byte, size: nat, log: seq<SignedEvent>)
    requires MAX_LINK_BYTES < size <= MAX_PAYLOAD_BYTES
    requires Inviting(0, 2, StateAfter(SampleProfile(), log)) && IdAt(0, 1) in IdsOf(log)
    ensures Admissible(SampleProfile(), log, Acceptance(user, size))
  {
    AcceptanceIsValid(user, size);
    AcceptanceDecodes(user, size);
    AcceptanceIsAuthorized(StateAfter(SampleProfile(), log), Acceptance(user, size), SampleUser(user), IdsOf(log));
  }

  lemma AcceptanceIsAuthorized(state: State, event: SignedEvent, author: Id, accepted: set<Id>)
    requires Inviting(0, 2, state) && Parents(event) <= accepted && event.content.community == Some(IdAt(0, 0))
    ensures var payload := MemberAccept(IdAt(0, 1), Zeros(SIGNATURE_LEN));
            ContextFault(SampleProfile(), state, event, payload, author, accepted).None?
  {
  }

  lemma NotInChain(s: Candidates, order: seq<Id>, id: Id)
    requires Links(0, 2, s, order) && id != IdAt(0, 0) && id != IdAt(0, 1)
    ensures id !in s
  {
    assert Placed(0, s, order, 0) && Placed(0, s, order, 1);
  }

  /** What makes an acceptance one of two rivals. */
  ghost predicate Contends(profile: Profile, s: Candidates, order: seq<Id>, invitation: Id, x: SignedEvent)
    requires AllCandidates(s, order)
  {
    && x.id !in s && Parents(x) == Heads(s) && Governance.Redeems(profile, x, invitation)
    && Admissible(profile, Log(s, order), x)
  }

  lemma AcceptanceContends(user: Byte, size: nat, s: Candidates, order: seq<Id>)
    requires MAX_LINK_BYTES < size <= MAX_PAYLOAD_BYTES && AllCandidates(s, order)
    requires Acceptance(user, size).id !in s && Parents(Acceptance(user, size)) == Heads(s)
    requires Inviting(0, 2, StateAfter(SampleProfile(), Log(s, order))) && IdAt(0, 1) in IdsOf(Log(s, order))
    ensures Contends(SampleProfile(), s, order, IdAt(0, 1), Acceptance(user, size))
  {
    AcceptanceDecodes(user, size);
    AcceptanceIsAdmissible(user, size, Log(s, order));
  }

  lemma AcceptanceIsNew(user: Byte, size: nat, s: Candidates, order: seq<Id>)
    requires MAX_LINK_BYTES < size <= MAX_PAYLOAD_BYTES && Links(0, 2, s, order) && Chained(0, 2, s)
    ensures Acceptance(user, size).id !in s && Parents(Acceptance(user, size)) == Heads(s)
  {
    AcceptanceIsValid(user, size);
    NotInChain(s, order, Acceptance(user, size).id);
  }

  lemma InvitationIsListed(s: Candidates, order: seq<Id>)
    requires Links(0, 2, s, order) && AllCandidates(s, order)
    ensures IdAt(0, 1) in IdsOf(Log(s, order))
  {
    LogIds(s, order);
    assert Placed(0, s, order, 1);
  }

  lemma ContendersAreRivals(
    profile: Profile, s: Candidates, order: seq<Id>, invitation: Id, x: SignedEvent, y: SignedEvent)
    requires Indexed(s) && Closure.Grounded(s, s.Keys) && IsResolution(profile, s, order)
    requires Heads(s) <= Elements(order) && AllCandidates(s, order) && x.id < y.id
    requires Contends(profile, s, order, invitation, x) && Contends(profile, s, order, invitation, y)
    ensures Rivals.Rivals(profile, s, order, invitation, x, y)
  {
  }

  /** There are rivals: two different users, of whom the one with the greater id is displaced. */
  lemma SomeRivals()
    returns (profile: Profile, s: Candidates, order: seq<Id>, invitation: Id, x: SignedEvent, y: SignedEvent)
    ensures Rivals.Rivals(profile, s, order, invitation, x, y)
    ensures ValidEvent(profile.crypto, x) && ValidEvent(profile.crypto, y)
    ensures AuthorId(profile.crypto, x) != AuthorId(profile.crypto, y)
  {
    profile, invitation := SampleProfile(), IdAt(0, 1);
    s, order := Build(0, 2);
    x, y := Acceptance(1, MAX_LINK_BYTES + 1), Acceptance(2, MAX_LINK_BYTES + 2);
    AcceptanceIsValid(1, MAX_LINK_BYTES + 1);
    AcceptanceIsValid(2, MAX_LINK_BYTES + 2);
    AcceptanceIsNew(1, MAX_LINK_BYTES + 1, s, order);
    AcceptanceIsNew(2, MAX_LINK_BYTES + 2, s, order);
    InvitationIsListed(s, order);
    AcceptanceContends(1, MAX_LINK_BYTES + 1, s, order);
    AcceptanceContends(2, MAX_LINK_BYTES + 2, s, order);
    HeadsAreListed(0, 2, s, order);
    ContendersAreRivals(profile, s, order, invitation, x, y);
  }
}
