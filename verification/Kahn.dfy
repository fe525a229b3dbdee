/**
 Ordering an archive's events so that parents come first (the first half of `ingest_archive`,
 crates/cli/src/main.rs:543-590): counters of parents still to come, lists of children, and a set of
 ready ids from which the least is taken.
 */
module Kahn {
  import opened Protocol
  import opened Ordering
  import Causality

  /** Pending ids with their parents. */
  type Graph = Causality.Graph

  // ------------------------------------------------------------------ specification

  predicate Distinct(ids: seq<Id>) {
    forall j, k :: 0 <= j < k < |ids| ==> ids[j] != ids[k]
  }

  /** Distinct ids, each after all of its parents that are not known already. */
  ghost predicate Topological(known: set<Id>, graph: Graph, order: seq<Id>) {
    && (forall k :: 0 <= k < |order| ==> order[k] in graph)
    && Distinct(order)
    && forall k :: 0 <= k < |order| ==> Elements(graph[order[k]]) <= known + Elements(order[..k])
  }

  /** The parents of an event that are pending and not ordered yet. */
  function Waiting(graph: Graph, done: set<Id>, i: Id): set<Id>
    requires i in graph
  {
    Elements(graph[i]) * (graph.Keys - done)
  }

  function Listed(children: map<Id, seq<Id>>, p: Id): seq<Id> {
    if p in children then children[p] else []
  }

  /** Parents are listed without repetition, as validation requires. */
  ghost predicate DistinctParents(graph: Graph) {
    forall i :: i in graph ==> Distinct(graph[i])
  }

  /** A pending event with a parent that is neither pending nor known. */
  ghost predicate Orphaned(known: set<Id>, graph: Graph, i: Id) {
    i in graph && !(Elements(graph[i]) <= known + graph.Keys)
  }

  // ------------------------------------------------------------------ counting parents

  /** `list` holds, without repetition, the counted events that name `p` as a parent. */
  ghost predicate Lists(graph: Graph, counted: set<Id>, p: Id, list: seq<Id>) {
    Distinct(list) && forall i :: i in list <==> i in counted && i in graph && p in graph[i]
  }

  ghost predicate Links(graph: Graph, counted: set<Id>, children: map<Id, seq<Id>>) {
    forall p :: p in graph ==> Lists(graph, counted, p, Listed(children, p))
  }

  /** Within one event: its parents `looked` have been linked already. */
  ghost predicate Linking(graph: Graph, counted: set<Id>, id: Id, looked: seq<Id>, children: map<Id, seq<Id>>) {
    forall p :: p in graph ==> Lists(graph, if p in looked then counted + {id} else counted, p, Listed(children, p))
  }

  lemma ListGrows(graph: Graph, counted: set<Id>, p: Id, list: seq<Id>, id: Id)
    requires Lists(graph, counted, p, list) && id !in counted && id in graph && p in graph[id]
    ensures Lists(graph, counted + {id}, p, list + [id])
  {
  }

  lemma ListStays(graph: Graph, counted: set<Id>, p: Id, list: seq<Id>, id: Id)
    requires Lists(graph, counted, p, list) && id in graph && p !in graph[id]
    ensures Lists(graph, counted + {id}, p, list)
  {
  }

  lemma LinkingStep(graph: Graph, counted: set<Id>, id: Id, looked: seq<Id>, next: Id, children: map<Id, seq<Id>>)
    requires Linking(graph, counted, id, looked, children)
    requires id in graph && id !in counted && next !in looked && next in graph && next in graph[id]
    ensures Linking(graph, counted, id, looked + [next], children[next := Listed(children, next) + [id]])
  {
    var children' := children[next := Listed(children, next) + [id]];
    ListGrows(graph, counted, next, Listed(children, next), id);
    forall p | p in graph
      ensures Lists(graph, if p in looked + [next] then counted + {id} else counted, p, Listed(children', p))
    {
      assert p in looked + [next] <==> p in looked || p == next;
      if p != next {
        assert Listed(children', p) == Listed(children, p);
      }
    }
  }

  lemma LinkingSkips(graph: Graph, counted: set<Id>, id: Id, looked: seq<Id>, next: Id, children: map<Id, seq<Id>>)
    requires Linking(graph, counted, id, looked, children) && next !in graph
    ensures Linking(graph, counted, id, looked + [next], children)
  {
    forall p | p in graph
      ensures p in looked + [next] <==> p in looked
    {
    }
  }

  lemma LinkingEnds(graph: Graph, counted: set<Id>, id: Id, children: map<Id, seq<Id>>)
    requires id in graph && Linking(graph, counted, id, graph[id], children)
    ensures Links(graph, counted + {id}, children)
  {
    forall p | p in graph
      ensures Lists(graph, counted + {id}, p, Listed(children, p))
    {
      if p !in graph[id] {
        ListStays(graph, counted, p, Listed(children, p), id);
      }
    }
  }

  lemma CountStep(keys: set<Id>, looked: seq<Id>, next: Id)
    requires next !in looked
    ensures |Elements(looked + [next]) * keys| == |Elements(looked) * keys| + if next in keys then 1 else 0
  {
    assert Elements(looked + [next]) * keys
        == Elements(looked) * keys + if next in keys then {next} else {};
  }

  lemma CountEnds(graph: Graph, id: Id)
    requires id in graph
    ensures Elements(graph[id]) * graph.Keys == Waiting(graph, {}, id)
  {
  }

  lemma NotAmongBefore(ids: seq<Id>, k: nat)
    requires Distinct(ids) && k < |ids|
    ensures ids[k] !in ids[..k] && ids[..k + 1] == ids[..k] + [ids[k]]
  {
  }

  lemma AllKnown(known: set<Id>, graph: Graph, id: Id)
    requires id in graph && forall j :: 0 <= j < |graph[id]| ==> graph[id][j] in known || graph[id][j] in graph
    ensures !Orphaned(known, graph, id)
  {
  }

  lemma LinkingBegins(graph: Graph, counted: set<Id>, id: Id, children: map<Id, seq<Id>>)
    requires Links(graph, counted, children)
    ensures Linking(graph, counted, id, [], children) && Elements([]) * graph.Keys == {}
  {
  }

  /** The first `k` parents of `id` have been counted and linked. */
  ghost predicate Midlink(
    known: set<Id>, graph: Graph, counted: set<Id>, id: Id, k: nat, children: map<Id, seq<Id>>, remaining: nat)
  {
    && id in graph && id !in counted && Distinct(graph[id]) && k <= |graph[id]|
    && Linking(graph, counted, id, graph[id][..k], children)
    && remaining == |Elements(graph[id][..k]) * graph.Keys|
    && forall j :: 0 <= j < k ==> graph[id][j] in known || graph[id][j] in graph
  }

  lemma MidlinkBegins(known: set<Id>, graph: Graph, counted: set<Id>, id: Id, children: map<Id, seq<Id>>)
    requires id in graph && id !in counted && Distinct(graph[id]) && Links(graph, counted, children)
    ensures Midlink(known, graph, counted, id, 0, children, 0)
  {
    LinkingBegins(graph, counted, id, children);
    assert graph[id][..0] == [];
  }

  lemma MidlinkStep(
    known: set<Id>, graph: Graph, counted: set<Id>, id: Id, k: nat, children: map<Id, seq<Id>>, remaining: nat)
    requires Midlink(known, graph, counted, id, k, children, remaining) && k < |graph[id]|
    ensures var parent := graph[id][k];
            && (parent in graph ==>
                  Midlink(known, graph, counted, id, k + 1,
                          children[parent := Listed(children, parent) + [id]], remaining + 1))
            && (parent !in graph && parent in known ==> Midlink(known, graph, counted, id, k + 1, children, remaining))
            && (parent !in graph && parent !in known ==> Orphaned(known, graph, id))
  {
    var parent := graph[id][k];
    NotAmongBefore(graph[id], k);
    CountStep(graph.Keys, graph[id][..k], parent);
    assert parent in Elements(graph[id]);
    if parent in graph {
      LinkingStep(graph, counted, id, graph[id][..k], parent, children);
    } else {
      LinkingSkips(graph, counted, id, graph[id][..k], parent, children);
    }
  }

  lemma MidlinkEnds(
    known: set<Id>, graph: Graph, counted: set<Id>, id: Id, children: map<Id, seq<Id>>, remaining: nat)
    requires id in graph && Midlink(known, graph, counted, id, |graph[id]|, children, remaining)
    ensures Links(graph, counted + {id}, children) && remaining == |Waiting(graph, {}, id)|
    ensures !Orphaned(known, graph, id)
  {
    assert graph[id][..|graph[id]|] == graph[id];
    LinkingEnds(graph, counted, id, children);
    CountEnds(graph, id);
    AllKnown(known, graph, id);
  }

  /** Counts the pending parents of one event and lists it under each of them. */
  method LinkParents(known: set<Id>, graph: Graph, ghost counted: set<Id>, id: Id, children: map<Id, seq<Id>>)
    returns (ok: bool, remaining: nat, children': map<Id, seq<Id>>)
    requires id in graph && id !in counted && Distinct(graph[id])
    requires Links(graph, counted, children)
    ensures ok <==> !Orphaned(known, graph, id)
    ensures ok ==> Links(graph, counted + {id}, children') && remaining == |Waiting(graph, {}, id)|
  {
    ok, remaining, children' := true, 0, children;
    MidlinkBegins(known, graph, counted, id, children);
    for k := 0 to |graph[id]|
      invariant Midlink(known, graph, counted, id, k, children', remaining)
    {
      var parent := graph[id][k];
      MidlinkStep(known, graph, counted, id, k, children', remaining);
      if parent in graph {
        remaining := remaining + 1;
        children' := children'[parent := Listed(children', parent) + [id]];
      } else if parent !in known {
        ok := false;
        return;
      }
    }
    MidlinkEnds(known, graph, counted, id, children', remaining);
  }

  ghost predicate Counted(graph: Graph, counted: set<Id>, done: set<Id>, remaining: map<Id, nat>) {
    && remaining.Keys == counted && counted <= graph.Keys
    && forall i :: i in counted ==> remaining[i] == |Waiting(graph, done, i)|
  }

  lemma CountedStep(graph: Graph, counted: set<Id>, remaining: map<Id, nat>, id: Id, count: nat)
    requires Counted(graph, counted, {}, remaining) && id in graph && count == |Waiting(graph, {}, id)|
    ensures Counted(graph, counted + {id}, {}, remaining[id := count])
  {
  }

  lemma LinksBegin(graph: Graph)
    ensures Links(graph, {}, map[]) && Counted(graph, {}, {}, map[])
  {
  }

  /** The first `k` ids have been counted and linked. */
  ghost predicate Midcount(
    known: set<Id>, graph: Graph, ids: seq<Id>, k: nat, remaining: map<Id, nat>, children: map<Id, seq<Id>>)
  {
    && DistinctParents(graph) && Distinct(ids) && Elements(ids) == graph.Keys && k <= |ids|
    && Counted(graph, Elements(ids[..k]), {}, remaining) && Links(graph, Elements(ids[..k]), children)
    && forall i :: i in Elements(ids[..k]) ==> !Orphaned(known, graph, i)
  }

  lemma MidcountBegins(known: set<Id>, graph: Graph, ids: seq<Id>)
    requires DistinctParents(graph) && Distinct(ids) && Elements(ids) == graph.Keys
    ensures Midcount(known, graph, ids, 0, map[], map[])
  {
    LinksBegin(graph);
    assert Elements(ids[..0]) == {};
  }

  lemma NextToCount(
    known: set<Id>, graph: Graph, ids: seq<Id>, k: nat, remaining: map<Id, nat>, children: map<Id, seq<Id>>)
    requires Midcount(known, graph, ids, k, remaining, children) && k < |ids|
    ensures ids[k] in graph && ids[k] !in Elements(ids[..k]) && Distinct(graph[ids[k]])
    ensures Links(graph, Elements(ids[..k]), children)
  {
    assert ids[k] in Elements(ids);
    NotAmongBefore(ids, k);
  }

  lemma ElementsOneMore(ids: seq<Id>, k: nat)
    requires k < |ids|
    ensures Elements(ids[..k + 1]) == Elements(ids[..k]) + {ids[k]}
  {
    assert ids[..k + 1] == ids[..k] + [ids[k]];
  }

  lemma MidcountStep(
    known: set<Id>, graph: Graph, ids: seq<Id>, k: nat, remaining: map<Id, nat>, children: map<Id, seq<Id>>,
    count: nat, children': map<Id, seq<Id>>)
    requires Midcount(known, graph, ids, k, remaining, children) && k < |ids| && ids[k] in graph
    requires !Orphaned(known, graph, ids[k]) && count == |Waiting(graph, {}, ids[k])|
    requires Links(graph, Elements(ids[..k]) + {ids[k]}, children')
    ensures Midcount(known, graph, ids, k + 1, remaining[ids[k] := count], children')
  {
    ElementsOneMore(ids, k);
    CountedStep(graph, Elements(ids[..k]), remaining, ids[k], count);
  }

  lemma MidcountEnds(known: set<Id>, graph: Graph, ids: seq<Id>, remaining: map<Id, nat>, children: map<Id, seq<Id>>)
    requires Midcount(known, graph, ids, |ids|, remaining, children)
    ensures Counted(graph, graph.Keys, {}, remaining) && Links(graph, graph.Keys, children)
    ensures forall i :: i in graph ==> !Orphaned(known, graph, i)
  {
    assert ids[..|ids|] == ids;
  }

  /** Counts and links every pending event; fails on a parent that is neither pending nor known. */
  method CountParents(known: set<Id>, graph: Graph)
    returns (ok: bool, remaining: map<Id, nat>, children: map<Id, seq<Id>>)
    requires DistinctParents(graph)
    ensures ok <==> forall i :: i in graph ==> !Orphaned(known, graph, i)
    ensures ok ==> Counted(graph, graph.Keys, {}, remaining) && Links(graph, graph.Keys, children)
  {
    ok, remaining, children := true, map[], map[];
    var ids := Ascending(graph.Keys);
    MidcountBegins(known, graph, ids);
    for k := 0 to |ids|
      invariant ok && Midcount(known, graph, ids, k, remaining, children)
    {
      NextToCount(known, graph, ids, k, remaining, children);
      var more, count, children' := LinkParents(known, graph, Elements(ids[..k]), ids[k], children);
      if !more {
        ok := false;
        return;
      }
      MidcountStep(known, graph, ids, k, remaining, children, count, children');
      remaining, children := remaining[ids[k] := count], children';
    }
    MidcountEnds(known, graph, ids, remaining, children);
  }

  // ------------------------------------------------------------------ releasing children

  lemma WaitingLess(graph: Graph, done: set<Id>, id: Id, i: Id)
    requires i in graph && id in graph && id !in done
    ensures |Waiting(graph, done + {id}, i)| == |Waiting(graph, done, i)| - if id in graph[i] then 1 else 0
  {
    if id in graph[i] {
      assert Waiting(graph, done, i) == Waiting(graph, done + {id}, i) + {id};
    } else {
      assert Waiting(graph, done, i) == Waiting(graph, done + {id}, i);
    }
  }

  /** The children of `id` released so far have one parent fewer to wait for than at the start. */
  ghost predicate Releasing(
    start: map<Id, nat>, done: set<Id>, id: Id, released: set<Id>, remaining: map<Id, nat>, ready: set<Id>)
  {
    && remaining.Keys == start.Keys
    && (forall i :: i in start ==> remaining[i] + (if i in released then 1 else 0) == start[i])
    && forall i :: i in ready <==> i in start && i !in done && i != id && remaining[i] == 0
  }

  lemma ReleaseStep(
    start: map<Id, nat>, done: set<Id>, id: Id, released: set<Id>, remaining: map<Id, nat>, ready: set<Id>, child: Id)
    requires Releasing(start, done, id, released, remaining, ready)
    requires child in start && start[child] > 0 && child !in released && child !in done && child != id
    ensures remaining[child] > 0
    ensures var count := remaining[child] - 1;
            Releasing(start, done, id, released + {child}, remaining[child := count],
                      if count == 0 then ready + {child} else ready)
  {
    ReadyStep(start.Keys, done, id, remaining, ready, child, remaining[child] - 1);
  }

  lemma ReadyStep(
    ids: set<Id>, done: set<Id>, id: Id, remaining: map<Id, nat>, ready: set<Id>, child: Id, count: nat)
    requires remaining.Keys == ids && child in ids && child !in done && child != id
    requires remaining[child] == count + 1
    requires forall i :: i in ready <==> i in ids && i !in done && i != id && remaining[i] == 0
    ensures var ready', remaining' := if count == 0 then ready + {child} else ready, remaining[child := count];
            forall i :: i in ready' <==> i in ids && i !in done && i != id && remaining'[i] == 0
  {
  }

  /** When all its children have been released, `id` is done. */
  lemma ReleaseEnds(
    graph: Graph, start: map<Id, nat>, done: set<Id>, id: Id, released: set<Id>, remaining: map<Id, nat>,
    ready: set<Id>)
    requires Counted(graph, graph.Keys, done, start) && Releasing(start, done, id, released, remaining, ready)
    requires id in graph && id !in done
    requires forall i :: i in released <==> i in graph && id in graph[i]
    ensures Counted(graph, graph.Keys, done + {id}, remaining)
    ensures forall i :: i in ready <==> i in graph && i !in done + {id} && remaining[i] == 0
  {
    forall i | i in graph
      ensures remaining[i] == |Waiting(graph, done + {id}, i)|
    {
      WaitingLess(graph, done, id, i);
    }
  }

  /** The ids in progress: ordered ones, counters, and the ids ready to be ordered. */
  ghost predicate Sorting(
    known: set<Id>, graph: Graph, order: seq<Id>, remaining: map<Id, nat>, children: map<Id, seq<Id>>, ready: set<Id>)
  {
    && Topological(known, graph, order)
    && Counted(graph, graph.Keys, Elements(order), remaining)
    && (forall i :: i in ready <==> i in graph && i !in Elements(order) && remaining[i] == 0)
    && LinksBeyond(graph, Elements(order), children)
  }

  /** The child lists of all ids that are not done. */
  ghost predicate LinksBeyond(graph: Graph, done: set<Id>, children: map<Id, seq<Id>>) {
    forall p :: p in graph && p !in done ==> Lists(graph, graph.Keys, p, Listed(children, p))
  }

  lemma ChildIsWaiting(graph: Graph, done: set<Id>, id: Id, child: Id)
    requires id in graph && id !in done && child in graph && id in graph[child]
    ensures |Waiting(graph, done, child)| > 0
  {
    assert id in Waiting(graph, done, child);
  }

  lemma ReadyMeansNothingWaits(known: set<Id>, graph: Graph, done: set<Id>, i: Id)
    requires i in graph && !Orphaned(known, graph, i) && |Waiting(graph, done, i)| == 0
    ensures Elements(graph[i]) <= known + done
  {
    forall p | p in Elements(graph[i])
      ensures p in known + done
    {
      assert p !in Waiting(graph, done, i);
    }
  }

  /** Ordered ids have all their parents ordered or known. */
  lemma OrderedNamesOrdered(known: set<Id>, graph: Graph, order: seq<Id>, i: Id)
    requires Topological(known, graph, order) && i in Elements(order)
    ensures i in graph && Elements(graph[i]) <= known + Elements(order)
  {
    var k :| 0 <= k < |order| && order[k] == i;
    assert Elements(order[..k]) <= Elements(order);
  }

  /** A child of the id being ordered is not ordered itself, and its counter is positive. */
  lemma ChildIsLater(
    known: set<Id>, graph: Graph, order: seq<Id>, remaining: map<Id, nat>, id: Id, child: Id)
    requires Topological(known, graph, order) && Counted(graph, graph.Keys, Elements(order), remaining)
    requires known !! graph.Keys && id in graph && id !in Elements(order) && remaining[id] == 0
    requires child in graph && id in graph[child]
    ensures child !in Elements(order) && child != id && remaining[child] > 0
  {
    ChildIsWaiting(graph, Elements(order), id, child);
    if child in Elements(order) {
      OrderedNamesOrdered(known, graph, order, child);
    }
  }

  ghost predicate Later(remaining: map<Id, nat>, done: set<Id>, id: Id, list: seq<Id>) {
    forall c :: c in list ==> c in remaining && remaining[c] > 0 && c !in done && c != id
  }

  lemma ReleaseBegins(remaining: map<Id, nat>, done: set<Id>, id: Id, ready: set<Id>)
    requires forall i :: i in ready <==> i in remaining && i !in done && remaining[i] == 0
    ensures Releasing(remaining, done, id, {}, remaining, ready - {id})
  {
  }

  /** Lowers the counter of every child of `id`; no counter goes below zero. */
  method Release(ghost done: set<Id>, ghost id: Id, list: seq<Id>, start: map<Id, nat>, before: set<Id>)
    returns (remaining: map<Id, nat>, ready: set<Id>)
    requires Distinct(list) && Later(start, done, id, list)
    requires Releasing(start, done, id, {}, start, before)
    ensures Releasing(start, done, id, Elements(list), remaining, ready)
  {
    remaining, ready := start, before;
    assert Elements(list[..0]) == {};
    for k := 0 to |list|
      invariant Releasing(start, done, id, Elements(list[..k]), remaining, ready)
    {
      NotAmongBefore(list, k);
      ElementsOneMore(list, k);
      ReleaseStep(start, done, id, Elements(list[..k]), remaining, ready, list[k]);
      var count := remaining[list[k]] - 1;
      remaining := remaining[list[k] := count];
      if count == 0 {
        ready := ready + {list[k]};
      }
    }
    assert list[..|list|] == list;
  }

  lemma ChildrenAreLater(
    known: set<Id>, graph: Graph, order: seq<Id>, remaining: map<Id, nat>, id: Id, list: seq<Id>)
    requires Topological(known, graph, order) && Counted(graph, graph.Keys, Elements(order), remaining)
    requires known !! graph.Keys && id in graph && id !in Elements(order) && remaining[id] == 0
    requires Lists(graph, graph.Keys, id, list)
    ensures Later(remaining, Elements(order), id, list)
  {
    forall c | c in list
      ensures c in remaining && remaining[c] > 0 && c !in Elements(order) && c != id
    {
      ChildIsLater(known, graph, order, remaining, id, c);
    }
  }

  lemma OrderGrows(known: set<Id>, graph: Graph, order: seq<Id>, id: Id)
    requires Topological(known, graph, order) && id in graph && id !in Elements(order)
    requires Elements(graph[id]) <= known + Elements(order)
    ensures Topological(known, graph, order + [id]) && Elements(order + [id]) == Elements(order) + {id}
  {
    var order' := order + [id];
    assert order'[..|order|] == order;
    forall k | 0 <= k < |order|
      ensures order'[k] in graph && Elements(graph[order'[k]]) <= known + Elements(order'[..k])
    {
      assert order'[..k] == order[..k];
    }
  }

  ghost predicate Complete(known: set<Id>, graph: Graph) {
    known !! graph.Keys && forall i :: i in graph ==> !Orphaned(known, graph, i)
  }

  lemma SortStep(
    known: set<Id>, graph: Graph, order: seq<Id>, remaining: map<Id, nat>, children: map<Id, seq<Id>>, ready: set<Id>,
    id: Id, remaining': map<Id, nat>, ready': set<Id>)
    requires Complete(known, graph) && Sorting(known, graph, order, remaining, children, ready) && id in ready
    requires Counted(graph, graph.Keys, Elements(order) + {id}, remaining')
    requires forall i :: i in ready' <==> i in graph && i !in Elements(order) + {id} && remaining'[i] == 0
    ensures Sorting(known, graph, order + [id], remaining', children - {id}, ready')
  {
    ReadyMeansNothingWaits(known, graph, Elements(order), id);
    OrderGrows(known, graph, order, id);
    LinksLose(graph, Elements(order), children, id);
  }

  lemma LinksLose(graph: Graph, done: set<Id>, children: map<Id, seq<Id>>, id: Id)
    requires LinksBeyond(graph, done, children)
    ensures LinksBeyond(graph, done + {id}, children - {id})
  {
    forall p | p in graph && p !in done + {id}
      ensures Lists(graph, graph.Keys, p, Listed(children - {id}, p))
    {
      assert Listed(children - {id}, p) == Listed(children, p);
    }
  }

  /** Orders one ready id and releases its children. */
  method OrderOne(
    ghost known: set<Id>, ghost graph: Graph, order: seq<Id>, remaining: map<Id, nat>, children: map<Id, seq<Id>>,
    ready: set<Id>)
    returns (order': seq<Id>, remaining': map<Id, nat>, children': map<Id, seq<Id>>, ready': set<Id>)
    requires Complete(known, graph) && Sorting(known, graph, order, remaining, children, ready) && ready != {}
    ensures Sorting(known, graph, order', remaining', children', ready')
    ensures |order'| == |order| + 1 && |order'| <= |graph|
  {
    var id := Least(ready);
    var list := Listed(children, id);
    OrderingBegins(known, graph, order, remaining, children, ready, id, list);
    remaining', ready' := Release(Elements(order), id, list, remaining, ready - {id});
    OrderingEnds(known, graph, order, remaining, children, ready, id, list, remaining', ready');
    order', children' := order + [id], children - {id};
    OrderFits(known, graph, order');
  }

  lemma OrderingBegins(
    known: set<Id>, graph: Graph, order: seq<Id>, remaining: map<Id, nat>, children: map<Id, seq<Id>>, ready: set<Id>,
    id: Id, list: seq<Id>)
    requires Complete(known, graph) && Sorting(known, graph, order, remaining, children, ready) && id in ready
    requires list == Listed(children, id)
    ensures Distinct(list) && Later(remaining, Elements(order), id, list)
    ensures Releasing(remaining, Elements(order), id, {}, remaining, ready - {id})
  {
    ChildrenAreLater(known, graph, order, remaining, id, list);
    ReleaseBegins(remaining, Elements(order), id, ready);
  }

  lemma OrderingEnds(
    known: set<Id>, graph: Graph, order: seq<Id>, remaining: map<Id, nat>, children: map<Id, seq<Id>>, ready: set<Id>,
    id: Id, list: seq<Id>, remaining': map<Id, nat>, ready': set<Id>)
    requires Complete(known, graph) && Sorting(known, graph, order, remaining, children, ready) && id in ready
    requires list == Listed(children, id)
    requires Releasing(remaining, Elements(order), id, Elements(list), remaining', ready')
    ensures Sorting(known, graph, order + [id], remaining', children - {id}, ready')
  {
    AllChildren(graph, id, list);
    ReleaseEnds(graph, remaining, Elements(order), id, Elements(list), remaining', ready');
    SortStep(known, graph, order, remaining, children, ready, id, remaining', ready');
  }

  lemma AllChildren(graph: Graph, id: Id, list: seq<Id>)
    requires Lists(graph, graph.Keys, id, list)
    ensures forall i :: i in Elements(list) <==> i in graph && id in graph[i]
  {
  }

  lemma {:induction false} DistinctFits(order: seq<Id>, ids: set<Id>)
    requires Distinct(order) && Elements(order) <= ids
    ensures |order| <= |ids| && (|order| == |ids| ==> Elements(order) == ids)
    ensures |order| == |Elements(order)|
  {
    if order == [] {
      assert Elements(order) == {};
      assert |ids| == 0 ==> ids == {};
    } else {
      var last, init := order[|order| - 1], order[..|order| - 1];
      assert order == init + [last];
      NotAmongBefore(order, |order| - 1);
      ElementsOneMore(order, |order| - 1);
      DistinctFits(init, ids - {last});
    }
  }

  lemma OrderFits(known: set<Id>, graph: Graph, order: seq<Id>)
    requires Topological(known, graph, order)
    ensures |order| <= |graph|
  {
    forall i | i in Elements(order)
      ensures i in graph.Keys
    {
      OrderedNamesOrdered(known, graph, order, i);
    }
    DistinctFits(order, graph.Keys);
  }

  /** Nothing ready is left, so nothing more can be ordered. */
  lemma SortEnds(
    known: set<Id>, graph: Graph, order: seq<Id>, remaining: map<Id, nat>, children: map<Id, seq<Id>>)
    requires Complete(known, graph) && Sorting(known, graph, order, remaining, children, {})
    ensures Exhaustive(known, graph, order)
  {
    forall i | i in graph && Elements(graph[i]) <= known + Elements(order)
      ensures i in Elements(order)
    {
      assert Waiting(graph, Elements(order), i) == {};
    }
  }

  /** Every id whose parents are all known or ordered is ordered. */
  ghost predicate Exhaustive(known: set<Id>, graph: Graph, order: seq<Id>) {
    forall i :: i in graph && Elements(graph[i]) <= known + Elements(order) ==> i in Elements(order)
  }

  function AtZero(remaining: map<Id, nat>): set<Id> {
    set i | i in remaining && remaining[i] == 0
  }

  lemma SortBegins(
    known: set<Id>, graph: Graph, remaining: map<Id, nat>, children: map<Id, seq<Id>>, ready: set<Id>)
    requires Counted(graph, graph.Keys, {}, remaining) && Links(graph, graph.Keys, children)
    requires ready == AtZero(remaining)
    ensures Sorting(known, graph, [], remaining, children, ready)
  {
    assert Elements<Id>([]) == {};
  }

  /**
   The order found contains each id once, after its parents, and every id whose parents are all
   known or ordered.
   */
  method Sort(known: set<Id>, ghost graph: Graph, remaining: map<Id, nat>, children: map<Id, seq<Id>>)
    returns (order: seq<Id>)
    requires Complete(known, graph)
    requires Counted(graph, graph.Keys, {}, remaining) && Links(graph, graph.Keys, children)
    ensures Topological(known, graph, order)
    ensures Exhaustive(known, graph, order)
  {
    var counts, links := remaining, children;
    var ready := AtZero(remaining);
    order := [];
    SortBegins(known, graph, remaining, children, ready);
    while ready != {}
      invariant Sorting(known, graph, order, counts, links, ready)
      decreases |graph| - |order|
    {
      order, counts, links, ready := OrderOne(known, graph, order, counts, links, ready);
    }
    SortEnds(known, graph, order, counts, links);
  }
}
