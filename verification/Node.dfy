/**
 The core node (crates/node-core): a store of validated events, the ids known for its community, and
 ingestion of unordered batches. The SQLite store is a map in which an insert keeps an existing row
 (crates/storage/src/lib.rs:37-50).
 */
module Node {
  import opened Wrappers
  import opened Protocol
  import opened Ordering
  import opened Closure

  const MAX_PENDING_EVENTS := 1024

  datatype NodeError =
    | Invalid(fault: ProtocolError)
    | UnknownCommunity
    | WrongCommunity
    | PendingLimitExceeded
    | UnknownEvent
    | AncestryLimitExceeded

  datatype Report = Report(inserted: nat, alreadyPresent: nat, unresolved: seq<Id>)

  /** The value of a node. */
  datatype NodeState = NodeState(store: Events, community: Option<Id>, known: set<Id>)

  // ------------------------------------------------------------------ checks on a batch

  function FirstGenesis(events: seq<SignedEvent>): (genesis: Option<Id>)
    ensures genesis.None? <==> forall e :: e in events ==> !IsGenesis(e)
    ensures genesis.Some? ==> exists e :: e in events && IsGenesis(e) && e.id == genesis.value
  {
    if events == [] then None
    else if IsGenesis(events[0]) then Some(events[0].id)
    else FirstGenesis(events[1..])
  }

  predicate AllBelong(events: seq<SignedEvent>, community: Id) {
    forall e :: e in events ==> Belongs(e, community)
  }

  /** The community a batch is ingested for: the node's own, or that of the first genesis. */
  function CommunityFor(community: Option<Id>, events: seq<SignedEvent>): Option<Id> {
    if community.Some? then community else FirstGenesis(events)
  }

  /** Why a batch is refused as a whole. */
  function IngestFault(crypto: Crypto, community: Option<Id>, events: seq<SignedEvent>): Option<NodeError> {
    if |events| > MAX_PENDING_EVENTS then Some(PendingLimitExceeded)
    else if FirstFault(crypto, events).Some? then Some(Invalid(FirstFault(crypto, events).value))
    else if CommunityFor(community, events).None? then Some(UnknownCommunity)
    else if !AllBelong(events, CommunityFor(community, events).value) then Some(WrongCommunity)
    else None
  }

  /** The batch is of the node's community, or of its own genesis's if the node has none yet. */
  ghost predicate OneCommunity(community: Option<Id>, events: seq<SignedEvent>) {
    exists c ::
      && (community == Some(c) || (community == None && exists g :: g in events && IsGenesis(g) && g.id == c))
      && forall e :: e in events ==> Belongs(e, c)
  }

  lemma OneCommunityIs(community: Option<Id>, events: seq<SignedEvent>)
    ensures OneCommunity(community, events) <==>
              CommunityFor(community, events).Some? && AllBelong(events, CommunityFor(community, events).value)
  {
    if community.None? && OneCommunity(community, events) {
      var c :| (exists g :: g in events && IsGenesis(g) && g.id == c) && forall e :: e in events ==> Belongs(e, c);
      assert FirstGenesis(events) == Some(c);
    }
  }

  /** Each reason for refusing a batch means that its check fails and the checks before it pass. */
  lemma BatchRefusalIs(crypto: Crypto, community: Option<Id>, events: seq<SignedEvent>)
    ensures var valid := |events| <= 1024 && forall e :: e in events ==> ValidEvent(crypto, e);
            match IngestFault(crypto, community, events)
            case None => valid && OneCommunity(community, events)
            case Some(PendingLimitExceeded) => |events| > 1024
            case Some(Invalid(fault)) => |events| <= 1024 && FirstFault(crypto, events) == Some(fault)
            case Some(UnknownCommunity) => valid && community == None && forall e :: e in events ==> !IsGenesis(e)
            case Some(WrongCommunity) =>
              && valid && (community.Some? || exists g :: g in events && IsGenesis(g))
              && !OneCommunity(community, events)
            case _ => false
  {
    OneCommunityIs(community, events);
  }

  /** The batch by id; the last event of an id counts. */
  function BatchOf(events: seq<SignedEvent>): (batch: Events)
    ensures forall i :: i in batch ==> batch[i] in events && batch[i].id == i
    ensures forall e :: e in events ==> e.id in batch
  {
    if events == [] then map[]
    else
      var init, last := events[..|events| - 1], events[|events| - 1];
      assert events == init + [last];
      BatchOf(init)[last.id := last]
  }

  // ------------------------------------------------------------------ what ingestion does

  /** Rows already present are kept. */
  function Stored(store: Events, batch: Events, ids: set<Id>): Events
    requires ids <= batch.Keys
  {
    store + (map i | i in ids && i !in store :: batch[i])
  }

  /** The node after taking in `ids` of the batch. */
  function TakenIn(node: NodeState, batch: Events, ids: set<Id>, community: Id): NodeState
    requires ids <= batch.Keys
  {
    NodeState(
      Stored(node.store, batch, ids),
      if exists i :: i in ids && IsGenesis(batch[i]) then Some(community) else node.community,
      node.known + ids)
  }

  /** The node after ingesting an acceptable batch: everything the batch lets it absorb is taken in. */
  ghost function Ingested(node: NodeState, events: seq<SignedEvent>): NodeState {
    match CommunityFor(node.community, events)
    case None => node
    case Some(community) =>
      var batch := BatchOf(events);
      TakenIn(node, batch, Absorbed(node.known, batch), community)
  }

  /** Inserting one row, unless it is there. */
  function WithRow(store: Events, id: Id, event: SignedEvent): Events {
    if id in store then store else store[id := event]
  }

  lemma StoredStep(store: Events, batch: Events, ids: set<Id>, x: Id)
    requires ids <= batch.Keys && x in batch && x !in ids
    ensures Stored(store, batch, ids + {x}) == WithRow(Stored(store, batch, ids), x, batch[x])
    ensures x in Stored(store, batch, ids) <==> x in store
  {
  }

  /** The node after one insertion. */
  function Inserted(node: NodeState, id: Id, event: SignedEvent, community: Id): NodeState {
    NodeState(WithRow(node.store, id, event),
              if IsGenesis(event) then Some(community) else node.community,
              node.known + {id})
  }

  /** The node after inserting the listed batch events one by one. */
  function InsertedAll(node: NodeState, batch: Events, order: seq<Id>, community: Id): NodeState
    requires forall i :: 0 <= i < |order| ==> order[i] in batch
  {
    if order == [] then node
    else
      var last := order[|order| - 1];
      Inserted(InsertedAll(node, batch, order[..|order| - 1], community), last, batch[last], community)
  }

  lemma TakenInStep(node: NodeState, batch: Events, ids: set<Id>, x: Id, community: Id)
    requires ids <= batch.Keys && x in batch && x !in ids
    ensures TakenIn(node, batch, ids + {x}, community)
            == Inserted(TakenIn(node, batch, ids, community), x, batch[x], community)
  {
    StoredStep(node.store, batch, ids, x);
    assert node.known + (ids + {x}) == node.known + ids + {x};
  }

  /** Inserting a round's ids in order is taking them in. */
  lemma {:induction false} InsertedAllIsTakenIn(
    node: NodeState, batch: Events, taken: set<Id>, order: seq<Id>, community: Id)
    requires taken <= batch.Keys && Elements(order) <= batch.Keys && taken !! Elements(order)
    requires forall i :: 0 <= i < |order| ==> order[i] in batch
    requires forall i, j :: 0 <= i < j < |order| ==> order[i] != order[j]
    ensures InsertedAll(TakenIn(node, batch, taken, community), batch, order, community)
            == TakenIn(node, batch, taken + Elements(order), community)
  {
    if order == [] {
      assert taken + Elements(order) == taken;
    } else {
      var init, last := order[..|order| - 1], order[|order| - 1];
      assert order == init + [last];
      assert Elements(order) == Elements(init) + {last};
      InsertedAllIsTakenIn(node, batch, taken, init, community);
      TakenInStep(node, batch, taken + Elements(init), last, community);
      assert taken + Elements(init) + {last} == taken + Elements(order);
    }
  }

  lemma TakenInNothing(node: NodeState, batch: Events, community: Id)
    ensures TakenIn(node, batch, {}, community) == node
  {
    assert Stored(node.store, batch, {}) == node.store;
    assert node.known + {} == node.known;
  }

  // ------------------------------------------------------------------ heads and ancestry

  /** Known events that no known event names as a parent; known ids without a row name nothing. */
  function HeadSet(store: Events, known: set<Id>): set<Id> {
    set i | i in known && forall k | k in known && k in store :: i !in Parents(store[k])
  }

  /** Every id is stored together with its parents. */
  ghost predicate Ancestral(store: Events, ids: set<Id>) {
    ids <= store.Keys && forall i, p :: i in ids && p in Parents(store[i]) ==> p in ids
  }

  /** `ids` is the least ancestral set containing `id`. */
  ghost predicate AncestryOf(store: Events, id: Id, ids: set<Id>) {
    && id in ids && Ancestral(store, ids)
    && forall other :: Ancestral(store, other) && id in other ==> ids <= other
  }

  /** Every ancestral set containing `id` has more than `limit` members. */
  ghost predicate AncestryExceeds(store: Events, id: Id, limit: nat) {
    forall other :: Ancestral(store, other) && id in other ==> |other| > limit
  }

  ghost predicate NoAncestry(store: Events, id: Id) {
    forall other :: Ancestral(store, other) ==> id !in other
  }

  function EventsOf(store: Events, ids: seq<Id>): (events: seq<SignedEvent>)
    requires forall i :: 0 <= i < |ids| ==> ids[i] in store
    ensures |events| == |ids|
    ensures forall i :: 0 <= i < |ids| ==> events[i] == store[ids[i]]
  {
    seq(|ids|, i requires 0 <= i < |ids| => store[ids[i]])
  }

  /** `EventStore::get` for each id; unknown ids are skipped. */
  function StoredEvents(store: Events, ids: seq<Id>): (events: seq<SignedEvent>)
    ensures forall e :: e in events ==> exists i :: i in ids && i in store && store[i] == e
    ensures forall i :: i in ids && i in store ==> store[i] in events
  {
    if ids == [] then []
    else (if ids[0] in store then [store[ids[0]]] else []) + StoredEvents(store, ids[1..])
  }

  /** The ids that some of the events name as parents. */
  function Named(store: Events, ids: set<Id>): set<Id> {
    set k, i | k in ids && k in store && i in Parents(store[k]) :: i
  }

  /** The ids that the first `n` listed events name. */
  function NamedUpTo(store: Events, order: seq<Id>, n: nat): set<Id>
    requires n <= |order|
  {
    Named(store, Elements(order[..n]))
  }

  lemma NamedByNone(store: Events, order: seq<Id>)
    ensures NamedUpTo(store, order, 0) == {}
  {
  }

  lemma NamedGrows(store: Events, order: seq<Id>, n: nat)
    requires n < |order|
    ensures NamedUpTo(store, order, n + 1)
            == NamedUpTo(store, order, n) + if order[n] in store then Parents(store[order[n]]) else {}
  {
    assert order[..n + 1] == order[..n] + [order[n]];
    assert Elements(order[..n + 1]) == Elements(order[..n]) + {order[n]};
    NamedByOneMore(store, Elements(order[..n]), order[n]);
  }

  lemma NamedByOneMore(store: Events, ids: set<Id>, x: Id)
    ensures Named(store, ids + {x}) == Named(store, ids) + if x in store then Parents(store[x]) else {}
  {
  }

  lemma HeadsAreUnnamed(store: Events, known: set<Id>, order: seq<Id>)
    requires Elements(order) == known
    ensures known - NamedUpTo(store, order, |order|) == HeadSet(store, known)
  {
    assert order[..|order|] == order;
  }

  class CoreNode {
    var store: Events
    var community: Option<Id>
    var known: set<Id>

    function View(): NodeState
      reads this
    {
      NodeState(store, community, known)
    }

    /** Opens a store, for one of its communities or for none yet. */
    constructor (store: Events, community: Option<Id>)
      ensures this.store == store && this.community == community
      ensures known == set i | i in store && community.Some? && Belongs(store[i], community.value)
    {
      this.store, this.community := store, community;
      known := set i | i in store && community.Some? && Belongs(store[i], community.value);
    }

    /** `open`: a named community must have stored events. */
    static method Open(store: Events, community: Option<Id>) returns (r: Result<CoreNode, NodeError>)
      ensures r.Err? <==> community.Some? && forall i :: i in store ==> !Belongs(store[i], community.value)
      ensures r.Err? ==> r.error == UnknownCommunity
      ensures r.Ok? ==> fresh(r.value) && r.value.store == store && r.value.community == community
      ensures r.Ok? ==> r.value.known == set i | i in store && community.Some? && Belongs(store[i], community.value)
    {
      var node := new CoreNode(store, community);
      if community.Some? && node.known == {} {
        assert forall i :: i in store && Belongs(store[i], community.value) ==> i in node.known;
        return Err(UnknownCommunity);
      }
      return Ok(node);
    }

    /**
     Ingests an unordered batch: refuses it whole, or takes in exactly what parent closure allows
     and reports the rest as unresolved.
     */
    method Ingest(crypto: Crypto, events: seq<SignedEvent>) returns (r: Result<Report, NodeError>)
      modifies this
      ensures r.Err? <==> IngestFault(crypto, old(community), events).Some?
      ensures r.Err? ==> Some(r.error) == IngestFault(crypto, old(community), events) && View() == old(View())
      ensures r.Ok? ==>
        var batch := BatchOf(events);
        var absorbed := Absorbed(old(known), batch);
        && View() == Ingested(old(View()), events)
        && r.value.unresolved == Ascending(batch.Keys - absorbed)
        && r.value.inserted == |absorbed - old(store).Keys|
        && r.value.alreadyPresent == |absorbed * old(store).Keys|
    {
      var fault := IngestFault(crypto, community, events);
      if fault.Some? {
        return Err(fault.value);
      }
      var report := AbsorbBatch(BatchOf(events), CommunityFor(community, events).value);
      return Ok(report);
    }

    /** Takes in the batch round by round until nothing more is ready. */
    method AbsorbBatch(batch: Events, target: Id) returns (report: Report)
      modifies this
      ensures var absorbed := Absorbed(old(known), batch);
        && View() == TakenIn(old(View()), batch, absorbed, target)
        && report.unresolved == Ascending(batch.Keys - absorbed)
        && report.inserted == |absorbed - old(store).Keys|
        && report.alreadyPresent == |absorbed * old(store).Keys|
    {
      var pending := batch;
      var inserted, already := 0, 0;
      ghost var start, taken: set<Id> := View(), {};
      IngestBegins(start, batch, taken, target);
      while true
        invariant Midway(start, batch, taken, target, View(), pending, inserted, already)
        decreases |pending|
      {
        var ready := Ready(known, pending);
        if ready == {} {
          break;
        }
        FewerLeft(pending, ready);
        inserted, already := AbsorbRound(start, batch, taken, target, pending, ready, inserted, already);
        taken := taken + ready;
        pending := pending - ready;
      }
      IngestEnds(start, batch, taken, target, View(), pending, inserted, already);
      return Report(inserted, already, Ascending(pending.Keys));
    }

    /** Inserts the ready events of one round and counts them. */
    method AbsorbRound(
      ghost start: NodeState, batch: Events, ghost taken: set<Id>, target: Id, ghost pending: Events, ready: set<Id>,
      inserted: nat, already: nat)
      returns (inserted': nat, already': nat)
      requires Midway(start, batch, taken, target, View(), pending, inserted, already)
      requires ready == Ready(known, pending) && ready != {}
      modifies this
      ensures Midway(start, batch, taken + ready, target, View(), pending - ready, inserted', already')
    {
      ghost var before := View();
      ReadyIsInBatch(start, batch, taken, target, before, pending, inserted, already);
      AscendingIn(batch, ready);
      var order := Ascending(ready);
      var new_, there := InsertInOrder(batch, order, target);
      inserted', already' := inserted + new_, already + there;
      IngestContinues(start, batch, taken, target, before, pending, inserted, already,
                      ready, order, View(), inserted', already');
    }

    /** Inserts one event, marks it known, and learns the community from a genesis. */
    method Insert(id: Id, event: SignedEvent, target: Id) returns (isNew: bool)
      modifies this
      ensures View() == Inserted(old(View()), id, event, target)
      ensures isNew == (id !in old(store)) && store.Keys == old(store).Keys + {id}
    {
      isNew := id !in store;
      if isNew {
        store := store[id := event];
      }
      known := known + {id};
      if IsGenesis(event) {
        community := Some(target);
      }
    }

    /** Inserts the ready events of one round, in id order. */
    method InsertInOrder(batch: Events, order: seq<Id>, target: Id) returns (inserted: nat, already: nat)
      requires AllIn(batch, order) && StrictlySorted(order)
      modifies this
      ensures View() == InsertedAll(old(View()), batch, order, target)
      ensures inserted == CountNew(order, old(store).Keys) && already == |order| - inserted
    {
      inserted, already := 0, 0;
      for n := 0 to |order|
        invariant AllIn(batch, order[..n]) && View() == InsertedAll(old(View()), batch, order[..n], target)
        invariant store.Keys == old(store).Keys + Elements(order[..n])
        invariant inserted == CountNew(order[..n], old(store).Keys) && already == n - inserted
      {
        FreshInOrder(order, n);
        InsertedOneMore(old(View()), batch, order, n, target);
        CountOneMore(order, old(store).Keys, n);
        var isNew := Insert(order[n], batch[order[n]], target);
        if isNew {
          inserted := inserted + 1;
        } else {
          already := already + 1;
        }
      }
      assert order[..|order|] == order;
    }

    /** `ancestry`: the worklist search, with its limit. */
    method Ancestry(id: Id, limit: nat) returns (r: Result<seq<SignedEvent>, NodeError>)
      ensures r.Ok? ==> exists ids ::
        AncestryOf(store, id, ids) && |ids| <= limit && r.value == EventsOf(store, Ascending(ids))
      ensures r.Err? ==>
        || (r.error == AncestryLimitExceeded && AncestryExceeds(store, id, limit))
        || (r.error == AncestryLimitExceeded && limit == 0)
        || (r.error == UnknownEvent && NoAncestry(store, id))
    {
      if limit == 0 {
        return Err(AncestryLimitExceeded);
      }
      var pending := [id];
      var discovered: set<Id> := {};
      while pending != []
        invariant |discovered| <= limit && Frontier(store, id, discovered, pending)
        decreases limit - |discovered|, |pending|
      {
        var next, rest := pending[|pending| - 1], pending[..|pending| - 1];
        FrontierPops(store, id, discovered, pending);
        if next in discovered {
          pending := rest;
          continue;
        }
        if |discovered + {next}| > limit {
          LimitIsExceeded(store, id, discovered + {next}, limit);
          return Err(AncestryLimitExceeded);
        }
        if next !in store {
          return Err(UnknownEvent);
        }
        FrontierGrows(store, id, discovered, pending);
        discovered := discovered + {next};
        pending := rest + store[next].content.parents;
      }
      SearchEnds(store, id, discovered);
      return Ok(EventsOf(store, Ascending(discovered)));
    }

    /** `heads`: known events minus everything referenced. */
    method Heads() returns (heads: seq<Id>)
      ensures heads == Ascending(HeadSet(store, known))
    {
      var referenced: set<Id> := {};
      var order := Ascending(known);
      NamedByNone(store, order);
      for n := 0 to |order|
        invariant referenced == NamedUpTo(store, order, n)
      {
        NamedGrows(store, order, n);
        if order[n] in store {
          referenced := referenced + Parents(store[order[n]]);
        }
      }
      HeadsAreUnnamed(store, known, order);
      return Ascending(known - referenced);
    }
  }

  lemma LimitIsExceeded(store: Events, id: Id, found: set<Id>, limit: nat)
    requires |found| > limit
    requires forall other :: Ancestral(store, other) && id in other ==> found <= other
    ensures AncestryExceeds(store, id, limit)
  {
    forall other | Ancestral(store, other) && id in other
      ensures |other| > limit
    {
      SubsetIsNoLarger(found, other);
    }
  }

  ghost predicate AllIn(batch: Events, order: seq<Id>) {
    forall i :: 0 <= i < |order| ==> order[i] in batch
  }

  lemma AscendingIn(batch: Events, ready: set<Id>)
    requires ready <= batch.Keys
    ensures AllIn(batch, Ascending(ready))
    ensures forall i, j :: 0 <= i < j < |Ascending(ready)| ==> Ascending(ready)[i] != Ascending(ready)[j]
  {
    var order := Ascending(ready);
    assert forall i :: 0 <= i < |order| ==> order[i] in Elements(order);
  }

  lemma FreshInOrder(order: seq<Id>, n: nat)
    requires StrictlySorted(order) && n < |order|
    ensures order[n] !in Elements(order[..n])
    ensures Elements(order[..n]) + {order[n]} == Elements(order[..n + 1])
  {
    assert order[..n + 1] == order[..n] + [order[n]];
    assert forall i :: 0 <= i < n ==> order[..n][i] == order[i] < order[n];
  }

  lemma StoredKeys(store: Events, batch: Events, ids: set<Id>)
    requires ids <= batch.Keys
    ensures Stored(store, batch, ids).Keys == store.Keys + ids
  {
  }

  /** Counting a round against the rows of the start and counting it against the rows by then agree. */
  lemma CountRound(
    taken: set<Id>, ready: set<Id>, present: set<Id>, inserted: nat, already: nat, new_: nat, there: nat)
    requires taken !! ready
    requires Counted(taken, present, inserted, already)
    requires Counted(ready, present + taken, new_, there)
    ensures Counted(taken + ready, present, inserted + new_, already + there)
  {
    assert ready - (present + taken) == ready - present;
    assert ready * (present + taken) == ready * present;
    assert taken + ready - present == (taken - present) + (ready - present);
    assert (taken + ready) * present == taken * present + ready * present;
    assert (taken - present) !! (ready - present) && (taken * present) !! (ready * present);
  }

  lemma InsertedOneMore(node: NodeState, batch: Events, order: seq<Id>, n: nat, community: Id)
    requires AllIn(batch, order) && n < |order|
    ensures AllIn(batch, order[..n]) && AllIn(batch, order[..n + 1])
    ensures InsertedAll(node, batch, order[..n + 1], community)
            == Inserted(InsertedAll(node, batch, order[..n], community), order[n], batch[order[n]], community)
  {
    assert order[..n + 1][..n] == order[..n] && order[..n + 1][n] == order[n];
  }

  /** How many of `ids` were new to the store, and how many were there. */
  ghost predicate Counted(ids: set<Id>, present: set<Id>, inserted: nat, already: nat) {
    inserted == |ids - present| && already == |ids * present|
  }

  /** How many of the listed ids are new. */
  function CountNew(order: seq<Id>, present: set<Id>): (count: nat)
    ensures count <= |order|
  {
    if order == [] then 0
    else CountNew(order[..|order| - 1], present) + if order[|order| - 1] in present then 0 else 1
  }

  lemma CountOneMore(order: seq<Id>, present: set<Id>, n: nat)
    requires n < |order|
    ensures CountNew(order[..n + 1], present) == CountNew(order[..n], present) + if order[n] in present then 0 else 1
  {
    assert order[..n + 1][..n] == order[..n] && order[..n + 1][n] == order[n];
  }

  lemma {:induction false} CountNewIsCounted(order: seq<Id>, present: set<Id>)
    requires forall i, j :: 0 <= i < j < |order| ==> order[i] != order[j]
    ensures Counted(Elements(order), present, CountNew(order, present), |order| - CountNew(order, present))
  {
    if order == [] {
      CountNothing(present);
      assert Elements(order) == {};
    } else {
      var init, last := order[..|order| - 1], order[|order| - 1];
      CountNewIsCounted(init, present);
      assert order == init + [last];
      assert Elements(order) == Elements(init) + {last};
      CountStep(Elements(init), present, last);
    }
  }

  lemma CountNothing(present: set<Id>)
    ensures Counted({}, present, 0, 0)
  {
    assert {} - present == {} && {} * present == {};
  }

  lemma CountStep(ids: set<Id>, present: set<Id>, x: Id)
    requires x !in ids
    ensures |ids + {x} - present| == |ids - present| + if x in present then 0 else 1
    ensures |(ids + {x}) * present| == |ids * present| + if x in present then 1 else 0
  {
    if x in present {
      assert ids + {x} - present == ids - present;
      assert (ids + {x}) * present == ids * present + {x};
    } else {
      assert ids + {x} - present == (ids - present) + {x};
      assert (ids + {x}) * present == ids * present;
    }
  }

  lemma RoundsBegin(known: set<Id>, batch: Events, taken: set<Id>)
    requires taken == {}
    ensures batch == batch - taken
    ensures taken + Absorbed(known + taken, batch - taken) == Absorbed(known, batch)
  {
    assert known + taken == known && batch - taken == batch;
  }

  /** A round moves the ready ids from what is still to be absorbed to what is taken. */
  lemma NextRound(known: set<Id>, batch: Events, taken: set<Id>)
    requires taken + Absorbed(known + taken, batch - taken) == Absorbed(known, batch)
    requires Ready(known + taken, batch - taken) != {}
    ensures var ready := Ready(known + taken, batch - taken);
            && taken !! ready && ready <= batch.Keys
            && batch - (taken + ready) == batch - taken - ready
            && taken + ready + Absorbed(known + (taken + ready), batch - (taken + ready)) == Absorbed(known, batch)
  {
    var ready := Ready(known + taken, batch - taken);
    assert batch - (taken + ready) == batch - taken - ready;
    assert known + (taken + ready) == known + taken + ready;
  }

  /** The state of ingestion after whole rounds: `taken` is in, `pending` is left. */
  ghost predicate Midway(
    start: NodeState, batch: Events, taken: set<Id>, target: Id,
    node: NodeState, pending: Events, inserted: nat, already: nat)
  {
    && taken <= batch.Keys && pending == batch - taken
    && node == TakenIn(start, batch, taken, target)
    && taken + Absorbed(start.known + taken, batch - taken) == Absorbed(start.known, batch)
    && Counted(taken, start.store.Keys, inserted, already)
  }

  lemma IngestBegins(start: NodeState, batch: Events, taken: set<Id>, target: Id)
    requires taken == {}
    ensures Midway(start, batch, taken, target, start, batch, 0, 0)
  {
    TakenInNothing(start, batch, target);
    CountNothing(start.store.Keys);
    RoundsBegin(start.known, batch, taken);
  }

  lemma ReadyIsInBatch(
    start: NodeState, batch: Events, taken: set<Id>, target: Id,
    node: NodeState, pending: Events, inserted: nat, already: nat)
    requires Midway(start, batch, taken, target, node, pending, inserted, already)
    ensures Ready(node.known, pending) <= batch.Keys
  {
  }

  lemma IngestContinues(
    start: NodeState, batch: Events, taken: set<Id>, target: Id, node: NodeState, pending: Events,
    inserted: nat, already: nat, ready: set<Id>, order: seq<Id>, node': NodeState, inserted': nat, already': nat)
    requires Midway(start, batch, taken, target, node, pending, inserted, already)
    requires ready == Ready(node.known, pending) && ready != {} && order == Ascending(ready) && AllIn(batch, order)
    requires node' == InsertedAll(node, batch, order, target)
    requires var new_ := CountNew(order, node.store.Keys);
             inserted' == inserted + new_ && already' == already + (|order| - new_)
    ensures Midway(start, batch, taken + ready, target, node', pending - ready, inserted', already')
  {
    NextRound(start.known, batch, taken);
    RoundTaken(start, batch, taken, target, ready, order, node');
    RoundCounted(start, batch, taken, target, ready, order, inserted, already);
  }

  lemma RoundTaken(
    start: NodeState, batch: Events, taken: set<Id>, target: Id, ready: set<Id>, order: seq<Id>, node': NodeState)
    requires taken <= batch.Keys && ready <= batch.Keys && taken !! ready
    requires order == Ascending(ready) && AllIn(batch, order)
    requires node' == InsertedAll(TakenIn(start, batch, taken, target), batch, order, target)
    ensures node' == TakenIn(start, batch, taken + ready, target)
  {
    InsertedAllIsTakenIn(start, batch, taken, order, target);
  }

  lemma RoundCounted(
    start: NodeState, batch: Events, taken: set<Id>, target: Id, ready: set<Id>, order: seq<Id>, inserted: nat,
    already: nat)
    requires taken <= batch.Keys && taken !! ready && order == Ascending(ready)
    requires Counted(taken, start.store.Keys, inserted, already)
    ensures var new_ := CountNew(order, TakenIn(start, batch, taken, target).store.Keys);
            Counted(taken + ready, start.store.Keys, inserted + new_, already + (|order| - new_))
  {
    StoredKeys(start.store, batch, taken);
    RoundCounts(start, taken, ready, order, inserted, already);
  }

  lemma RoundCounts(start: NodeState, taken: set<Id>, ready: set<Id>, order: seq<Id>, inserted: nat, already: nat)
    requires taken !! ready && Elements(order) == ready && StrictlySorted(order)
    requires Counted(taken, start.store.Keys, inserted, already)
    ensures var new_ := CountNew(order, start.store.Keys + taken);
            Counted(taken + ready, start.store.Keys, inserted + new_, already + (|order| - new_))
  {
    var new_ := CountNew(order, start.store.Keys + taken);
    CountNewIsCounted(order, start.store.Keys + taken);
    CountRound(taken, ready, start.store.Keys, inserted, already, new_, |order| - new_);
  }

  lemma IngestEnds(
    start: NodeState, batch: Events, taken: set<Id>, target: Id,
    node: NodeState, pending: Events, inserted: nat, already: nat)
    requires Midway(start, batch, taken, target, node, pending, inserted, already)
    requires Ready(node.known, pending) == {}
    ensures taken == Absorbed(start.known, batch)
    ensures pending.Keys == batch.Keys - taken
  {
    assert Absorbed(start.known + taken, batch - taken) == {};
  }

  // ------------------------------------------------------------------ the ancestry search

  /** An exhausted search has found the whole ancestry. */
  lemma SearchEnds(store: Events, id: Id, discovered: set<Id>)
    requires Frontier(store, id, discovered, [])
    ensures AncestryOf(store, id, discovered)
    ensures forall i :: 0 <= i < |Ascending(discovered)| ==> Ascending(discovered)[i] in store
  {
    var order := Ascending(discovered);
    assert forall i :: 0 <= i < |order| ==> order[i] in Elements(order);
  }

  /** The search has found only ancestors, and everything still to be found hangs off `pending`. */
  ghost predicate Frontier(store: Events, id: Id, discovered: set<Id>, pending: seq<Id>) {
    && discovered <= store.Keys
    && (id in discovered || id in pending)
    && (forall i, p :: i in discovered && p in Parents(store[i]) ==> p in discovered || p in pending)
    && (forall other :: Ancestral(store, other) && id in other ==> discovered + Elements(pending) <= other)
  }

  lemma FrontierPops(store: Events, id: Id, discovered: set<Id>, pending: seq<Id>)
    requires Frontier(store, id, discovered, pending) && pending != []
    ensures var next, rest := pending[|pending| - 1], pending[..|pending| - 1];
            && (next in discovered ==> Frontier(store, id, discovered, rest))
            && (forall other :: Ancestral(store, other) && id in other ==> discovered + {next} <= other)
            && (next !in store ==> NoAncestry(store, id))
  {
    var next, rest := pending[|pending| - 1], pending[..|pending| - 1];
    assert pending == rest + [next];
    assert Elements(pending) == Elements(rest) + {next};
  }

  lemma FrontierGrows(store: Events, id: Id, discovered: set<Id>, pending: seq<Id>)
    requires Frontier(store, id, discovered, pending) && pending != []
    requires pending[|pending| - 1] in store
    ensures var next, rest := pending[|pending| - 1], pending[..|pending| - 1];
            Frontier(store, id, discovered + {next}, rest + store[next].content.parents)
  {
    var next, rest := pending[|pending| - 1], pending[..|pending| - 1];
    var more := store[next].content.parents;
    assert pending == rest + [next];
    assert Elements(pending) == Elements(rest) + {next};
    assert Elements(rest + more) == Elements(rest) + Parents(store[next]);
    forall other | Ancestral(store, other) && id in other
      ensures discovered + {next} + Elements(rest + more) <= other
    {
      assert next in other;
    }
  }
}
