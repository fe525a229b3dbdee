/**
 The deterministic chat resolver (crates/profile-chat/src/lib.rs): the meaning of a resolution, and
 the round-by-round algorithm proved to compute it.
 */
module Resolver {
  import opened Wrappers
  import Bytes
  import opened Protocol
  import opened Ordering
  import opened Chat
  import opened Causality
  import opened DecisionOrder

  type Candidates = map<Id, SignedEvent>

  datatype ChatSnapshot = ChatSnapshot(state: State, activeInvitations: map<Id, Bytes.Octets>, eventIds: set<Id>)

  datatype ChatResolution = ChatResolution(
    acceptedInOrder: seq<Id>, rejected: map<Id, RejectionReason>, snapshot: ChatSnapshot)

  // ------------------------------------------------------------------ what a resolution is

  /** The decodable candidates and the parents they name. */
  function GraphOf(profile: Profile, candidates: Candidates): Graph {
    map x | x in candidates && Decode(profile, candidates[x]).Some? :: candidates[x].content.parents
  }

  /** Longest chain of decodable candidate ancestors, payload priority, Event ID. */
  ghost function DecisionKeys(profile: Profile, candidates: Candidates): Keys {
    var g := GraphOf(profile, candidates);
    map x | x in g && Settled(g, x) ::
      Key(Depth(g, x), Priority(Decode(profile, candidates[x]).value), x)
  }

  lemma KeysAreKeyed(profile: Profile, candidates: Candidates)
    ensures KeyedById(DecisionKeys(profile, candidates))
    ensures DecisionKeys(profile, candidates).Keys <= candidates.Keys
  {
  }

  /** The accepted ids as a log of events. */
  ghost function Log(candidates: Candidates, ids: seq<Id>): (log: seq<SignedEvent>)
    requires forall i :: 0 <= i < |ids| ==> ids[i] in candidates
    ensures |log| == |ids|
    ensures forall i :: 0 <= i < |ids| ==> log[i] == candidates[ids[i]]
  {
    seq(|ids|, i requires 0 <= i < |ids| => candidates[ids[i]])
  }

  ghost predicate AllCandidates(candidates: Candidates, ids: seq<Id>) {
    forall i :: 0 <= i < |ids| ==> ids[i] in candidates
  }

  /** A candidate is admitted after a log that contains its parents and whose state authorizes it. */
  ghost function AdmissionRule(profile: Profile, candidates: Candidates): Rule {
    (ids, x) => x in candidates && AllCandidates(candidates, ids)
                && Admissible(profile, Log(candidates, ids), candidates[x])
  }

  /**
   `accepted` is the accepted order of the candidate set: increasing in decision key, and containing
   exactly the candidates admissible after the accepted events with smaller keys.
   */
  ghost predicate IsResolution(profile: Profile, candidates: Candidates, accepted: seq<Id>) {
    Resolved(AdmissionRule(profile, candidates), DecisionKeys(profile, candidates), accepted)
  }

  lemma AcceptedAreCandidates(profile: Profile, candidates: Candidates, ids: seq<Id>)
    requires SortedByKey(DecisionKeys(profile, candidates), ids)
    ensures AllCandidates(candidates, ids)
  {
    KeysAreKeyed(profile, candidates);
  }

  /** The accepted events that a candidate's authorization is judged after. */
  ghost function LogBefore(profile: Profile, candidates: Candidates, accepted: seq<Id>, x: Id): seq<SignedEvent>
    requires SortedByKey(DecisionKeys(profile, candidates), accepted) && x in DecisionKeys(profile, candidates)
  {
    AcceptedAreCandidates(profile, candidates, accepted);
    Log(candidates, Before(DecisionKeys(profile, candidates), accepted, x))
  }

  /** Why a candidate that is not accepted is rejected. */
  ghost function Reason(profile: Profile, candidates: Candidates, accepted: seq<Id>, x: Id): RejectionReason
    requires x in candidates && SortedByKey(DecisionKeys(profile, candidates), accepted)
  {
    if Decode(profile, candidates[x]).None? then InvalidPayload
    else if x !in DecisionKeys(profile, candidates) then MissingParent
    else if !(Parents(candidates[x]) <= candidates.Keys) then MissingParent
    else if !(Parents(candidates[x]) <= Elements(accepted)) then ParentRejected
    else JudgedReason(profile, LogBefore(profile, candidates, accepted, x), candidates[x])
  }

  /** The fault of a decodable event after `log`; an event without one is not rejected. */
  ghost function JudgedReason(profile: Profile, log: seq<SignedEvent>, event: SignedEvent): RejectionReason
    requires Decode(profile, event).Some?
  {
    match ContextFault(profile, StateAfter(profile, log), event, Decode(profile, event).value,
                       AuthorId(profile.crypto, event), IdsOf(log))
    case Some(reason) => reason
    case None => InvalidPayload
  }

  function SnapshotOf(state: State, accepted: seq<Id>): ChatSnapshot {
    var active := map i | i in state.invitations && i !in state.redeemed
                          && |state.invitations[i]| == PUBLIC_KEY_LEN :: state.invitations[i];
    ChatSnapshot(state, active, Elements(accepted))
  }

  /** `r` is the resolution of the candidate set, rejections and snapshot included. */
  ghost predicate Resolves(profile: Profile, candidates: Candidates, r: ChatResolution) {
    && IsResolution(profile, candidates, r.acceptedInOrder)
    && r.rejected.Keys == candidates.Keys - Elements(r.acceptedInOrder)
    && (forall x :: x in r.rejected ==> r.rejected[x] == Reason(profile, candidates, r.acceptedInOrder, x))
    && AllCandidates(candidates, r.acceptedInOrder)
    && r.snapshot == SnapshotOf(StateAfter(profile, Log(candidates, r.acceptedInOrder)), r.acceptedInOrder)
  }

  // ------------------------------------------------------------------ one decision

  /** Everything in `decided` has been accepted or rejected as it should be. */
  ghost predicate InProgress(
    profile: Profile, candidates: Candidates, accepted: seq<Id>,
    rejected: map<Id, RejectionReason>, decided: set<Id>)
  {
    && Indexed(candidates)
    && ResolvedOn(AdmissionRule(profile, candidates), DecisionKeys(profile, candidates), accepted, decided)
    && RejectedRest(profile, candidates, accepted, rejected, decided)
  }

  /** Rejected so far: the undecodable candidates, and what was decided but not accepted. */
  ghost predicate RejectedRest(
    profile: Profile, candidates: Candidates, accepted: seq<Id>,
    rejected: map<Id, RejectionReason>, decided: set<Id>)
    requires SortedByKey(DecisionKeys(profile, candidates), accepted)
  {
    && (forall x :: x in rejected <==>
                      x in candidates && (x !in GraphOf(profile, candidates) || (x in decided && x !in accepted)))
    && forall x :: x in rejected ==> rejected[x] == Reason(profile, candidates, accepted, x)
  }

  /** The decodable candidate parents of `x` have been decided. */
  ghost predicate ParentsDecided(profile: Profile, candidates: Candidates, decided: set<Id>, x: Id)
    requires x in candidates
  {
    forall p :: p in Parents(candidates[x]) && p in GraphOf(profile, candidates) ==> p in decided
  }

  lemma LogIds(candidates: Candidates, ids: seq<Id>)
    requires Indexed(candidates) && AllCandidates(candidates, ids)
    ensures IdsOf(Log(candidates, ids)) == Elements(ids)
  {
    var log := Log(candidates, ids);
    forall x | x in ids
      ensures x in IdsOf(log)
    {
      var i :| 0 <= i < |ids| && ids[i] == x;
      assert log[i] in log && log[i].id == x;
    }
  }

  /** With all parents present and none rejected, the parents are accepted. */
  lemma UnrejectedParentsAreAccepted(
    profile: Profile, candidates: Candidates, accepted: seq<Id>,
    rejected: map<Id, RejectionReason>, decided: set<Id>, x: Id)
    requires InProgress(profile, candidates, accepted, rejected, decided)
    requires x in candidates && ParentsDecided(profile, candidates, decided, x)
    requires Parents(candidates[x]) <= candidates.Keys
    ensures Parents(candidates[x]) <= Elements(accepted) <==> Parents(candidates[x]) !! rejected.Keys
  {
    forall p | p in Parents(candidates[x])
      ensures p in Elements(accepted) <==> p !in rejected
    {
      if p in GraphOf(profile, candidates) {
        assert p in decided;
      } else {
        assert p !in Elements(accepted);
      }
    }
  }

  /** What comes after everything decided is no parent of anything decided. */
  lemma LaterIsNoParent(profile: Profile, candidates: Candidates, decided: set<Id>, x: Id, y: Id)
    requires ComesNext(DecisionKeys(profile, candidates), decided, x) && y in decided
    ensures x !in Parents(candidates[y])
  {
    var keys, g := DecisionKeys(profile, candidates), GraphOf(profile, candidates);
    assert Less(keys[y], keys[x]);
    if x in g[y] {
      ParentsComeFirst(g, y, x);
    }
  }

  /** A verdict depends on which parents are accepted and on the log before the candidate. */
  lemma ReasonDependsOn(profile: Profile, candidates: Candidates, a: seq<Id>, b: seq<Id>, y: Id)
    requires SortedByKey(DecisionKeys(profile, candidates), a) && SortedByKey(DecisionKeys(profile, candidates), b)
    requires y in candidates
    requires y in DecisionKeys(profile, candidates) ==>
               && (Parents(candidates[y]) <= Elements(a) <==> Parents(candidates[y]) <= Elements(b))
               && Before(DecisionKeys(profile, candidates), a, y) == Before(DecisionKeys(profile, candidates), b, y)
    ensures Reason(profile, candidates, a, y) == Reason(profile, candidates, b, y)
  {
  }

  /** Appending a later event changes no earlier verdict. */
  lemma ReasonIsStable(
    profile: Profile, candidates: Candidates, accepted: seq<Id>, decided: set<Id>, x: Id, y: Id)
    requires ResolvedOn(AdmissionRule(profile, candidates), DecisionKeys(profile, candidates), accepted, decided)
    requires ComesNext(DecisionKeys(profile, candidates), decided, x)
    requires y in candidates && (y !in GraphOf(profile, candidates) || y in decided)
    ensures SortedByKey(DecisionKeys(profile, candidates), accepted + [x])
    ensures Reason(profile, candidates, accepted + [x], y) == Reason(profile, candidates, accepted, y)
  {
    var keys := DecisionKeys(profile, candidates);
    NextSeesAll(keys, accepted, decided, x);
    if y in decided {
      LaterIsNoParent(profile, candidates, decided, x, y);
      assert Elements(accepted + [x]) == Elements(accepted) + {x};
      AppendKeepsBefore(keys, accepted, decided, x, y);
    }
    ReasonDependsOn(profile, candidates, accepted + [x], accepted, y);
  }

  /** The verdict on the next candidate, as the algorithm reaches it. */
  function Verdict(
    profile: Profile, candidates: Candidates, state: State, accepted: set<Id>, rejected: set<Id>,
    payload: ChatPayload, author: Id, x: Id): Option<RejectionReason>
    requires x in candidates
  {
    if !(Parents(candidates[x]) <= candidates.Keys) then Some(MissingParent)
    else if !(Parents(candidates[x]) !! rejected) then Some(ParentRejected)
    else ContextFault(profile, state, candidates[x], payload, author, accepted)
  }

  lemma VerdictIsRule(
    profile: Profile, candidates: Candidates, accepted: seq<Id>,
    rejected: map<Id, RejectionReason>, decided: set<Id>, x: Id)
    requires InProgress(profile, candidates, accepted, rejected, decided)
    requires ComesNext(DecisionKeys(profile, candidates), decided, x)
    requires ParentsDecided(profile, candidates, decided, x)
    ensures AllCandidates(candidates, accepted)
    ensures var v := Verdict(profile, candidates, StateAfter(profile, Log(candidates, accepted)),
                             Elements(accepted), rejected.Keys, Decode(profile, candidates[x]).value,
                             AuthorId(profile.crypto, candidates[x]), x);
            && (v.None? <==> AdmissionRule(profile, candidates)(accepted, x))
            && (v.Some? ==> v.value == Reason(profile, candidates, accepted, x))
  {
    var keys := DecisionKeys(profile, candidates);
    AcceptedAreCandidates(profile, candidates, accepted);
    NextSeesAll(keys, accepted, decided, x);
    LogIds(candidates, accepted);
    assert Elements(accepted) <= candidates.Keys;
    if Parents(candidates[x]) <= candidates.Keys {
      UnrejectedParentsAreAccepted(profile, candidates, accepted, rejected, decided, x);
    }
  }

  /** Accepting the next candidate decides it. */
  lemma AcceptNext(
    profile: Profile, candidates: Candidates, accepted: seq<Id>,
    rejected: map<Id, RejectionReason>, decided: set<Id>, x: Id)
    requires InProgress(profile, candidates, accepted, rejected, decided)
    requires ComesNext(DecisionKeys(profile, candidates), decided, x)
    requires AdmissionRule(profile, candidates)(accepted, x)
    ensures InProgress(profile, candidates, accepted + [x], rejected, decided + {x})
  {
    DecideNext(AdmissionRule(profile, candidates), DecisionKeys(profile, candidates), accepted, decided, x);
    RejectedKept(profile, candidates, accepted, rejected, decided, x);
  }

  lemma RejectedKept(
    profile: Profile, candidates: Candidates, accepted: seq<Id>,
    rejected: map<Id, RejectionReason>, decided: set<Id>, x: Id)
    requires ResolvedOn(AdmissionRule(profile, candidates), DecisionKeys(profile, candidates), accepted, decided)
    requires ComesNext(DecisionKeys(profile, candidates), decided, x)
    requires RejectedRest(profile, candidates, accepted, rejected, decided)
    ensures SortedByKey(DecisionKeys(profile, candidates), accepted + [x])
    ensures RejectedRest(profile, candidates, accepted + [x], rejected, decided + {x})
  {
    NextSeesAll(DecisionKeys(profile, candidates), accepted, decided, x);
    forall y | y in rejected
      ensures rejected[y] == Reason(profile, candidates, accepted + [x], y)
    {
      ReasonIsStable(profile, candidates, accepted, decided, x, y);
    }
  }

  /** Rejecting the next candidate decides it. */
  lemma RejectNext(
    profile: Profile, candidates: Candidates, accepted: seq<Id>,
    rejected: map<Id, RejectionReason>, decided: set<Id>, x: Id, reason: RejectionReason)
    requires InProgress(profile, candidates, accepted, rejected, decided)
    requires ComesNext(DecisionKeys(profile, candidates), decided, x)
    requires !AdmissionRule(profile, candidates)(accepted, x)
    requires x in candidates && reason == Reason(profile, candidates, accepted, x)
    ensures InProgress(profile, candidates, accepted, rejected[x := reason], decided + {x})
  {
    DecideNext(AdmissionRule(profile, candidates), DecisionKeys(profile, candidates), accepted, decided, x);
    RejectedGrows(profile, candidates, accepted, rejected, decided, x);
  }

  lemma RejectedGrows(
    profile: Profile, candidates: Candidates, accepted: seq<Id>,
    rejected: map<Id, RejectionReason>, decided: set<Id>, x: Id)
    requires SortedByKey(DecisionKeys(profile, candidates), accepted)
    requires RejectedRest(profile, candidates, accepted, rejected, decided)
    requires x !in accepted && x !in decided && x in GraphOf(profile, candidates)
    ensures RejectedRest(profile, candidates, accepted,
                         rejected[x := Reason(profile, candidates, accepted, x)], decided + {x})
  {
    var rejected' := rejected[x := Reason(profile, candidates, accepted, x)];
    forall y | y in rejected'
      ensures rejected'[y] == Reason(profile, candidates, accepted, y)
    {
    }
  }
}
