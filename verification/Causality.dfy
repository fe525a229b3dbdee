/**
 Causal depth in a finite graph that need not be acyclic. A graph maps each node to the nodes it
 names as parents; parents outside the graph are allowed and end a chain.
 */
module Causality {
  import opened Protocol

  type Graph = map<Id, seq<Id>>

  /** Some chain of `k` ancestors inside the graph hangs below `x`. */
  ghost predicate HasChain(g: Graph, x: Id, k: nat)
    decreases k
  {
    x in g && (k == 0 || exists p :: p in g[x] && HasChain(g, p, k - 1))
  }

  lemma {:induction false} ChainsShorten(g: Graph, x: Id, j: nat, k: nat)
    requires j <= k && HasChain(g, x, k)
    ensures HasChain(g, x, j)
    decreases k
  {
    if 0 < j {
      var p :| p in g[x] && HasChain(g, p, k - 1);
      ChainsShorten(g, p, j - 1, k - 1);
    }
  }

  /** The chains below `x` are bounded. */
  ghost predicate Settled(g: Graph, x: Id) {
    x in g && exists k: nat :: !HasChain(g, x, k)
  }

  ghost predicate DepthIs(g: Graph, x: Id, d: nat) {
    HasChain(g, x, d) && !HasChain(g, x, d + 1)
  }

  lemma {:induction false} DepthExists(g: Graph, x: Id, k: nat)
    requires x in g && !HasChain(g, x, k)
    ensures exists d :: DepthIs(g, x, d)
  {
    if HasChain(g, x, k - 1) {
      assert DepthIs(g, x, k - 1);
    } else {
      DepthExists(g, x, k - 1);
    }
  }

  /** The length of the longest chain of ancestors. */
  ghost function Depth(g: Graph, x: Id): (d: nat)
    requires Settled(g, x)
    ensures DepthIs(g, x, d)
  {
    var k: nat :| !HasChain(g, x, k);
    DepthExists(g, x, k);
    var d :| DepthIs(g, x, d);
    d
  }

  lemma DepthIsUnique(g: Graph, x: Id, d: nat)
    requires DepthIs(g, x, d)
    ensures Settled(g, x) && Depth(g, x) == d
  {
    var d' := Depth(g, x);
    if d < d' {
      ChainsShorten(g, x, d + 1, d');
    } else if d' < d {
      ChainsShorten(g, x, d' + 1, d);
    }
  }

  /** Chains of length `k` exist exactly up to the depth. */
  lemma ChainsReachDepth(g: Graph, x: Id, k: nat)
    requires Settled(g, x)
    ensures HasChain(g, x, k) <==> k <= Depth(g, x)
  {
    var d := Depth(g, x);
    if k <= d {
      ChainsShorten(g, x, k, d);
    } else if HasChain(g, x, k) {
      ChainsShorten(g, x, d + 1, k);
    }
  }

  /** A settled node's parents in the graph are settled at smaller depth. */
  lemma ParentsComeFirst(g: Graph, x: Id, p: Id)
    requires Settled(g, x) && p in g[x] && p in g
    ensures Settled(g, p) && Depth(g, p) < Depth(g, x)
  {
    var d := Depth(g, x);
    assert !HasChain(g, p, d);
    if d <= Depth(g, p) {
      ChainsShorten(g, p, d, Depth(g, p));
    }
  }

  ghost predicate NamesMember(g: Graph, members: set<Id>, x: Id)
    requires x in g
  {
    exists p :: p in g[x] && p in members
  }

  /** If every member of `stuck` names another member as a parent, no member is ever settled. */
  lemma {:induction false} StuckHasChains(g: Graph, stuck: set<Id>, x: Id, k: nat)
    requires stuck <= g.Keys && x in stuck
    requires forall y :: y in stuck ==> NamesMember(g, stuck, y)
    ensures HasChain(g, x, k)
    decreases k
  {
    if k != 0 {
      assert NamesMember(g, stuck, x);
      var p :| p in g[x] && p in stuck;
      StuckHasChains(g, stuck, p, k - 1);
    }
  }

  // ------------------------------------------------------------------ locality

  /** On `part`, both graphs name the same parents, and none of them is in one graph outside `part`. */
  ghost predicate SameOn(g: Graph, h: Graph, part: set<Id>) {
    && part <= g.Keys && part <= h.Keys
    && (forall x, p :: x in part && p in g[x] ==> p in part || (p !in g && p !in h))
    && forall x :: x in part ==> g[x] == h[x]
  }

  lemma {:induction false} ChainsAreLocal(g: Graph, h: Graph, part: set<Id>, x: Id, k: nat)
    requires SameOn(g, h, part) && x in part
    ensures HasChain(g, x, k) <==> HasChain(h, x, k)
    decreases k
  {
    if k != 0 {
      forall p | p in g[x]
        ensures HasChain(g, p, k - 1) <==> HasChain(h, p, k - 1)
      {
        if p in part {
          ChainsAreLocal(g, h, part, p, k - 1);
        }
      }
    }
  }

  /** Depth depends only on the ancestors. */
  lemma DepthIsLocal(g: Graph, h: Graph, part: set<Id>, x: Id)
    requires SameOn(g, h, part) && x in part
    ensures Settled(g, x) <==> Settled(h, x)
    ensures Settled(g, x) ==> Depth(g, x) == Depth(h, x)
  {
    forall k: nat
      ensures HasChain(g, x, k) <==> HasChain(h, x, k)
    {
      ChainsAreLocal(g, h, part, x, k);
    }
    if Settled(g, x) {
      DepthIsUnique(h, x, Depth(g, x));
    }
  }

  // ------------------------------------------------------------------ cycles

  /** A walk from child to parent inside the graph. */
  ghost predicate IsWalk(g: Graph, walk: seq<Id>) {
    && (forall i :: 0 <= i < |walk| ==> walk[i] in g)
    && forall i :: 0 <= i < |walk| - 1 ==> walk[i + 1] in g[walk[i]]
  }

  ghost predicate Repeats(walk: seq<Id>) {
    exists i, j :: 0 <= i < j < |walk| && walk[i] == walk[j]
  }

  /** `x` is on a cycle or reaches one through its ancestors. */
  ghost predicate ReachesCycle(g: Graph, x: Id) {
    exists walk :: walk != [] && walk[0] == x && IsWalk(g, walk) && Repeats(walk)
  }

  lemma {:induction false} ChainIsWalk(g: Graph, x: Id, k: nat) returns (walk: seq<Id>)
    requires HasChain(g, x, k)
    ensures |walk| == k + 1 && walk[0] == x && IsWalk(g, walk)
    decreases k
  {
    if k == 0 {
      walk := [x];
    } else {
      var p :| p in g[x] && HasChain(g, p, k - 1);
      var rest := ChainIsWalk(g, p, k - 1);
      walk := [x] + rest;
    }
  }

  /** A walk with more steps than the graph has nodes repeats a node. */
  lemma {:induction false} LongWalkRepeats(nodes: set<Id>, walk: seq<Id>)
    requires forall i :: 0 <= i < |walk| ==> walk[i] in nodes
    requires |nodes| < |walk|
    ensures Repeats(walk)
  {
    var first := walk[0];
    if j :| 0 < j < |walk| && walk[j] == first {
      assert Repeats(walk);
    } else {
      LongWalkRepeats(nodes - {first}, walk[1..]);
      var i, j :| 0 <= i < j < |walk[1..]| && walk[1..][i] == walk[1..][j];
      assert walk[i + 1] == walk[j + 1];
    }
  }

  /** Unsettled nodes are exactly those on or behind a cycle. */
  lemma LeftoversReachCycles(g: Graph, x: Id)
    requires x in g
    ensures !Settled(g, x) <==> ReachesCycle(g, x)
  {
    if !Settled(g, x) {
      var walk := ChainIsWalk(g, x, |g|);
      LongWalkRepeats(g.Keys, walk);
    }
    if ReachesCycle(g, x) {
      var walk :| walk != [] && walk[0] == x && IsWalk(g, walk) && Repeats(walk);
      CycleNeverSettles(g, walk);
    }
  }

  lemma CycleNeverSettles(g: Graph, walk: seq<Id>)
    requires walk != [] && IsWalk(g, walk) && Repeats(walk)
    ensures !Settled(g, walk[0])
  {
    var i, j :| 0 <= i < j < |walk| && walk[i] == walk[j];
    var stuck := set n | 0 <= n < j :: walk[n];
    assert walk[0] in stuck;
    forall y | y in stuck
      ensures NamesMember(g, stuck, y)
    {
      var n :| 0 <= n < j && walk[n] == y;
      var next := if n + 1 < j then n + 1 else i;
      assert walk[next] == walk[n + 1];
      assert walk[next] in g[y] && walk[next] in stuck;
    }
    forall k: nat
      ensures HasChain(g, walk[0], k)
    {
      StuckHasChains(g, stuck, walk[0], k);
    }
  }
}
