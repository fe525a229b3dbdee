/** Ascending enumeration of identifier sets (BTreeSet iteration order) and `chunks`. */
module Ordering {
  import opened Protocol

  function Elements<T>(s: seq<T>): set<T> {
    set x | x in s
  }

  lemma NonEmpty<T>(s: seq<T>)
    requires s != []
    ensures Elements(s) != {}
  {
    assert s[0] in Elements(s);
  }

  lemma SubsetIsNoLarger(a: set<Id>, b: set<Id>)
    requires a <= b
    ensures |a| <= |b|
  {
    assert b == a + (b - a);
    assert |b| == |a| + |b - a|;
  }

  predicate IsLeast(m: Id, ids: set<Id>) {
    m in ids && forall x :: x in ids ==> m <= x
  }

  lemma {:induction false} LeastExists(ids: set<Id>)
    requires ids != {}
    ensures exists m :: IsLeast(m, ids)
  {
    var a :| a in ids;
    var rest := ids - {a};
    if rest == {} {
      assert ids == {a};
      assert IsLeast(a, ids);
    } else {
      LeastExists(rest);
      var m :| IsLeast(m, rest);
      var least := if a < m then a else m;
      forall x | x in ids
        ensures least <= x
      {
        assert x == a || x in rest;
      }
      assert IsLeast(least, ids);
    }
  }

  function Least(ids: set<Id>): (m: Id)
    requires ids != {}
    ensures IsLeast(m, ids)
  {
    LeastExists(ids);
    var m :| m in ids && IsLeast(m, ids);
    m
  }

  lemma SortedPrepend(m: Id, rest: seq<Id>)
    requires StrictlySorted(rest) && forall x :: x in Elements(rest) ==> m < x
    ensures StrictlySorted([m] + rest)
    ensures Elements([m] + rest) == {m} + Elements(rest)
  {
    var all := [m] + rest;
    forall i, j | 0 <= i < j < |all|
      ensures all[i] < all[j]
    {
      assert all[j] == rest[j - 1] && rest[j - 1] in Elements(rest);
      if i > 0 {
        assert all[i] == rest[i - 1];
      }
    }
  }

  lemma SortedCons(ids: set<Id>, m: Id, rest: seq<Id>)
    requires IsLeast(m, ids)
    requires StrictlySorted(rest) && Elements(rest) == ids - {m}
    ensures StrictlySorted([m] + rest)
    ensures Elements([m] + rest) == ids
  {
    SortedPrepend(m, rest);
  }

  /** The ids in increasing order, each once. */
  function Ascending(ids: set<Id>): (s: seq<Id>)
    ensures Elements(s) == ids
    ensures |s| == |ids|
    ensures StrictlySorted(s)
  {
    if ids == {} then []
    else
      var m := Least(ids);
      var rest := Ascending(ids - {m});
      SortedCons(ids, m, rest);
      [m] + rest
  }

  /** Strictly increasing sequences are determined by their elements. */
  lemma {:induction false} SortedIsUnique(s: seq<Id>, t: seq<Id>)
    requires StrictlySorted(s) && StrictlySorted(t)
    requires Elements(s) == Elements(t)
    ensures s == t
  {
    if s == [] {
      if t != [] {
        NonEmpty(t);
        assert false;
      }
    } else if t == [] {
      NonEmpty(s);
      assert false;
    } else {
      assert s[0] in Elements(s) && t[0] in Elements(t);
      assert s[0] == t[0];
      assert Elements(s[1..]) == Elements(s) - {s[0]};
      assert Elements(t[1..]) == Elements(t) - {t[0]};
      SortedIsUnique(s[1..], t[1..]);
    }
  }

  function Flatten<T>(chunks: seq<seq<T>>): seq<T> {
    if chunks == [] then [] else chunks[0] + Flatten(chunks[1..])
  }

  /** Consecutive pieces of `size` elements, the last one possibly shorter. */
  function Chunks<T>(s: seq<T>, size: nat): (chunks: seq<seq<T>>)
    requires size > 0
    ensures Flatten(chunks) == s
    ensures forall i :: 0 <= i < |chunks| ==> 0 < |chunks[i]| <= size
  {
    if s == [] then []
    else if |s| <= size then assert s + [] == s; [s]
    else [s[..size]] + Chunks(s[size..], size)
  }

  lemma {:induction false} InFlatten<T>(chunks: seq<seq<T>>, i: nat, x: T)
    requires i < |chunks| && x in chunks[i]
    ensures x in Flatten(chunks)
  {
    if i != 0 {
      InFlatten(chunks[1..], i - 1, x);
    }
  }

  lemma {:induction false} FlattenIn<T>(chunks: seq<seq<T>>, x: T) returns (i: nat)
    requires x in Flatten(chunks)
    ensures i < |chunks| && x in chunks[i]
  {
    if x in chunks[0] {
      i := 0;
    } else {
      i := FlattenIn(chunks[1..], x);
      i := i + 1;
    }
  }

  /** Every piece of a strictly increasing sequence is strictly increasing. */
  lemma {:induction false} PiecesAreSorted(chunks: seq<seq<Id>>, i: nat)
    requires StrictlySorted(Flatten(chunks))
    requires i < |chunks|
    ensures StrictlySorted(chunks[i])
  {
    var whole := Flatten(chunks);
    assert whole[..|chunks[0]|] == chunks[0];
    assert whole[|chunks[0]|..] == Flatten(chunks[1..]);
    if i != 0 {
      PiecesAreSorted(chunks[1..], i - 1);
    } else {
      assert forall a, b :: 0 <= a < b < |chunks[0]| ==> chunks[0][a] == whole[a] && chunks[0][b] == whole[b];
    }
  }
}
