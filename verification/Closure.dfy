/**
 Parent closure: which events of a batch can be taken in, given what is known. The fixpoint is
 described three ways (round by round, as the least closed set, and by a causal order), because
 ingestion computes the first, order independence needs the second and convergence the third.
 */
module Closure {
  import opened Protocol

  type Events = map<Id, SignedEvent>

  function Ready(known: set<Id>, batch: Events): set<Id> {
    set i | i in batch && Parents(batch[i]) <= known
  }

  /** The batch ids taken in by repeated rounds. */
  ghost function Absorbed(known: set<Id>, batch: Events): (ids: set<Id>)
    ensures ids <= batch.Keys
    decreases |batch|
  {
    var ready := Ready(known, batch);
    if ready == {} then {}
    else
      FewerLeft(batch, ready);
      ready + Absorbed(known + ready, batch - ready)
  }

  lemma FewerLeft(batch: Events, ready: set<Id>)
    requires ready <= batch.Keys && ready != {}
    ensures |batch - ready| < |batch|
  {
    assert (batch - ready).Keys == batch.Keys - ready;
    assert batch.Keys == (batch.Keys - ready) + ready;
    assert |batch.Keys| == |batch.Keys - ready| + |ready|;
  }

  /** `whole` contains what is known and every batch id whose parents it contains. */
  ghost predicate Closed(known: set<Id>, batch: Events, whole: set<Id>) {
    && known <= whole
    && forall i :: i in batch && Parents(batch[i]) <= whole ==> i in whole
  }

  /** What is known together with what is absorbed is closed. */
  lemma {:induction false} AbsorbedIsClosed(known: set<Id>, batch: Events)
    ensures Closed(known, batch, known + Absorbed(known, batch))
    decreases |batch|
  {
    var ready := Ready(known, batch);
    if ready != {} {
      FewerLeft(batch, ready);
      AbsorbedIsClosed(known + ready, batch - ready);
      var whole := known + Absorbed(known, batch);
      assert whole == known + ready + Absorbed(known + ready, batch - ready);
      forall i | i in batch && Parents(batch[i]) <= whole
        ensures i in whole
      {
        if i !in ready {
          assert i in batch - ready && (batch - ready)[i] == batch[i];
        }
      }
    } else {
      assert known + Absorbed(known, batch) == known;
      assert forall i :: i in batch && Parents(batch[i]) <= known ==> i in ready;
    }
  }

  /** It is the least closed set. */
  lemma {:induction false} AbsorbedIsLeast(known: set<Id>, batch: Events, whole: set<Id>)
    requires Closed(known, batch, whole)
    ensures Absorbed(known, batch) <= whole
    decreases |batch|
  {
    var ready := Ready(known, batch);
    if ready != {} {
      FewerLeft(batch, ready);
      assert forall i :: i in ready ==> Parents(batch[i]) <= whole;
      assert Closed(known + ready, batch - ready, whole);
      AbsorbedIsLeast(known + ready, batch - ready, whole);
    }
  }

  /** Anything closed that only adds what must be added is the absorbed set. */
  lemma AbsorbedIs(known: set<Id>, batch: Events, added: set<Id>)
    requires Closed(known, batch, known + added)
    requires added <= batch.Keys
    requires added <= known + Absorbed(known, batch)
    ensures known + added == known + Absorbed(known, batch)
  {
    AbsorbedIsLeast(known, batch, known + added);
  }

  /** Absorbed events have their parents among the known and the absorbed. */
  lemma {:induction false} AbsorbedHasParents(known: set<Id>, batch: Events, i: Id)
    requires i in Absorbed(known, batch)
    ensures Parents(batch[i]) <= known + Absorbed(known, batch)
    decreases |batch|
  {
    var ready := Ready(known, batch);
    FewerLeft(batch, ready);
    if i !in ready {
      assert i in Absorbed(known + ready, batch - ready);
      AbsorbedHasParents(known + ready, batch - ready, i);
      assert (batch - ready)[i] == batch[i];
    }
  }

  /** A larger starting point or batch absorbs at least as much. */
  lemma AbsorbedIsMonotone(known: set<Id>, batch: Events, known': set<Id>, batch': Events)
    requires known <= known'
    requires forall i :: i in batch ==> i in batch' && batch'[i] == batch[i]
    ensures known + Absorbed(known, batch) <= known' + Absorbed(known', batch')
  {
    AbsorbedIsClosed(known', batch');
    assert Closed(known, batch, known' + Absorbed(known', batch'));
    AbsorbedIsLeast(known, batch, known' + Absorbed(known', batch'));
  }

  /** Absorbing one batch, and then what was left together with another, is absorbing both at once. */
  lemma AbsorbInTwoSteps(known: set<Id>, batch: Events, rest: Events, both: Events)
    requires forall i :: i in batch ==> i in both && both[i] == batch[i]
    requires forall i :: i in rest ==> i in both && both[i] == rest[i]
    requires forall i :: i in both ==> i in rest || i in known + Absorbed(known, batch)
    ensures var mid := known + Absorbed(known, batch);
            mid + Absorbed(mid, rest) == known + Absorbed(known, both)
  {
    var mid := known + Absorbed(known, batch);
    var end, whole := mid + Absorbed(mid, rest), known + Absorbed(known, both);
    AbsorbedIsMonotone(known, batch, known, both);
    AbsorbedIsClosed(known, both);
    assert Closed(mid, rest, whole);
    AbsorbedIsLeast(mid, rest, whole);
    AbsorbedIsClosed(mid, rest);
    forall i | i in both && Parents(both[i]) <= end
      ensures i in end
    {
      if i in rest {
        assert rest[i] == both[i];
      }
    }
    assert Closed(known, both, end);
    AbsorbedIsLeast(known, both, end);
  }

  // ------------------------------------------------------------------ causal ranks

  /** Every id has an event whose parents are among the ids at smaller rank. */
  ghost predicate Ranked(events: Events, ids: set<Id>, rank: map<Id, nat>, bound: nat) {
    && ids <= events.Keys && ids <= rank.Keys
    && (forall x :: x in ids ==> rank[x] < bound)
    && forall x, p :: x in ids && p in Parents(events[x]) ==> p in ids && rank[p] < rank[x]
  }

  /** The ids have all their parents and form no cycle. */
  ghost predicate Grounded(events: Events, ids: set<Id>) {
    exists rank: map<Id, nat>, bound: nat :: Ranked(events, ids, rank, bound)
  }

  /** Taking in ids whose parents are there. */
  lemma GroundedExtends(events: Events, ids: set<Id>, more: set<Id>)
    requires Grounded(events, ids) && more <= events.Keys
    requires forall x :: x in more ==> Parents(events[x]) <= ids
    ensures Grounded(events, ids + more)
  {
    var rank: map<Id, nat>, bound: nat :| Ranked(events, ids, rank, bound);
    var rank' := map x | x in ids + more :: if x in ids then rank[x] else bound;
    assert Ranked(events, ids + more, rank', bound + 1);
  }

  /** What is absorbed by a grounded set keeps it grounded. */
  lemma {:induction false} AbsorbedIsGrounded(events: Events, known: set<Id>, batch: Events)
    requires Grounded(events, known)
    requires forall i :: i in batch ==> i in events && events[i] == batch[i]
    ensures Grounded(events, known + Absorbed(known, batch))
    decreases |batch|
  {
    AbsorbedUnfolds(known, batch);
    var ready := Ready(known, batch);
    if ready != {} {
      FewerLeft(batch, ready);
      ReadyHasParents(events, known, batch);
      GroundedExtends(events, known, ready);
      AbsorbedIsGrounded(events, known + ready, batch - ready);
    }
  }

  lemma AbsorbedUnfolds(known: set<Id>, batch: Events)
    ensures var ready := Ready(known, batch);
            known + Absorbed(known, batch)
            == if ready == {} then known else known + ready + Absorbed(known + ready, batch - ready)
  {
  }

  lemma ReadyHasParents(events: Events, known: set<Id>, batch: Events)
    requires forall i :: i in batch ==> i in events && events[i] == batch[i]
    ensures Ready(known, batch) <= events.Keys
    ensures forall x :: x in Ready(known, batch) ==> Parents(events[x]) <= known
    ensures var rest := batch - Ready(known, batch);
            forall i :: i in rest ==> i in events && events[i] == rest[i]
  {
  }

  /** A grounded set holds the parents of its members. */
  lemma GroundedHoldsParents(events: Events, ids: set<Id>)
    requires Grounded(events, ids)
    ensures ids <= events.Keys
    ensures forall x, p :: x in ids && p in Parents(events[x]) ==> p in ids
  {
  }

  /** If `part` contains every member whose parents it contains, it contains the whole grounded set. */
  lemma GroundedInduction(events: Events, ids: set<Id>, part: set<Id>)
    requires Grounded(events, ids)
    requires forall x :: x in ids && x in events && Parents(events[x]) <= part ==> x in part
    ensures ids <= part
  {
    var rank: map<Id, nat>, bound: nat :| Ranked(events, ids, rank, bound);
    forall x | x in ids
      ensures x in part
    {
      RankInduction(events, ids, part, rank, bound, x);
    }
  }

  lemma {:induction false} RankInduction(
    events: Events, ids: set<Id>, part: set<Id>, rank: map<Id, nat>, bound: nat, x: Id)
    requires Ranked(events, ids, rank, bound) && x in ids
    requires forall y :: y in ids && Parents(events[y]) <= part ==> y in part
    ensures x in part
    decreases rank[x]
  {
    forall p | p in Parents(events[x])
      ensures p in part
    {
      RankInduction(events, ids, part, rank, bound, p);
    }
  }

  /** A non-empty part of a grounded set has a member that is no parent of another member of the part. */
  lemma GroundedHasMaximal(events: Events, ids: set<Id>, part: set<Id>) returns (top: Id)
    requires Grounded(events, ids) && part <= ids && part != {}
    ensures top in part
    ensures forall x :: x in part ==> x in events && top !in Parents(events[x])
  {
    var rank: map<Id, nat>, bound: nat :| Ranked(events, ids, rank, bound);
    var m :| m in part;
    top := Climb(events, ids, part, rank, bound, m);
  }

  lemma {:induction false} Climb(
    events: Events, ids: set<Id>, part: set<Id>, rank: map<Id, nat>, bound: nat, m: Id) returns (top: Id)
    requires Ranked(events, ids, rank, bound) && part <= ids && m in part
    ensures top in part && forall x :: x in part ==> top !in Parents(events[x])
    decreases bound - rank[m]
  {
    if x :| x in part && m in Parents(events[x]) {
      top := Climb(events, ids, part, rank, bound, x);
    } else {
      top := m;
    }
  }

  /** Merging two grounded sets over one collection of events. */
  lemma GroundedUnion(events: Events, a: set<Id>, b: set<Id>)
    requires Grounded(events, a) && Grounded(events, b)
    ensures Grounded(events, a + b)
  {
    var r: map<Id, nat>, m: nat :| Ranked(events, a, r, m);
    var s: map<Id, nat>, n: nat :| Ranked(events, b, s, n);
    RanksMerge(events, a, b, r, m, s, n);
  }

  lemma RanksMerge(
    events: Events, a: set<Id>, b: set<Id>, r: map<Id, nat>, m: nat, s: map<Id, nat>, n: nat)
    requires Ranked(events, a, r, m) && Ranked(events, b, s, n)
    ensures var rank := map x | x in a + b :: if x in a then r[x] else m + s[x];
            Ranked(events, a + b, rank, m + n)
  {
    var rank := map x | x in a + b :: if x in a then r[x] else m + s[x];
    forall x, p | x in a + b && p in Parents(events[x])
      ensures p in a + b && rank[p] < rank[x]
    {
      if x in a {
        assert p in a;
      } else {
        assert p in b && s[p] < s[x];
      }
    }
  }

  /** Groundedness depends only on the events of the ids themselves. */
  lemma GroundedTransfers(events: Events, events': Events, ids: set<Id>)
    requires Grounded(events, ids)
    requires forall x :: x in ids && x in events ==> x in events' && events'[x] == events[x]
    ensures Grounded(events', ids)
  {
    var rank: map<Id, nat>, bound: nat :| Ranked(events, ids, rank, bound);
    assert Ranked(events', ids, rank, bound);
  }

  lemma NothingIsGrounded(events: Events)
    ensures Grounded(events, {})
  {
    assert Ranked(events, {}, map[], 0);
  }
}
