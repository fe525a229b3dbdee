/** The portable community archive: sorting and validation of its wire form (crates/storage/src/archive.rs). */
module Archives {
  import opened Wrappers
  import opened Protocol
  import opened Ordering
  import opened Closure
  import opened Node
  import opened NodeTheorems
  import opened SyncMessages
  import opened Json
  import SyncTheorems

  const ARCHIVE_VERSION: U16 := 1
  const MAX_ARCHIVE_BYTES := 64 * 1024 * 1024
  const MAX_ARCHIVE_EVENTS := 65_536

  datatype Archive = Archive(version: U16, community: Id, events: seq<SignedEvent>)

  datatype ArchiveError =
    | TooLarge
    | UnsupportedVersion
    | EventLimit
    | InvalidOrder
    | InvalidEvent(fault: ProtocolError)
    | InvalidGenesis
    | WrongCommunity
    | MissingParent

  /** Length of the archive's compact JSON. */
  function ArchiveJson(archive: Archive): nat {
    11 + Digits(archive.version) + 16 + IdJson(archive.community) + 10 + EventsJson(archive.events) + 1
  }

  // ------------------------------------------------------------------ validation

  /** Each event comes before the next by id. */
  predicate WindowsAscend(events: seq<SignedEvent>) {
    forall i :: 0 <= i < |events| - 1 ==> events[i].id < events[i + 1].id
  }

  function GenesisEvents(events: seq<SignedEvent>): (r: seq<SignedEvent>)
    ensures forall e :: e in r <==> e in events && IsGenesis(e)
  {
    if events == [] then []
    else (if IsGenesis(events[0]) then [events[0]] else []) + GenesisEvents(events[1..])
  }

  predicate OneGenesis(events: seq<SignedEvent>, community: Id) {
    var genesis := GenesisEvents(events);
    |genesis| == 1 && genesis[0].id == community
  }

  predicate HasForeigner(events: seq<SignedEvent>, community: Id) {
    exists e :: e in events && e.content.community.Some? && e.content.community.value != community
  }

  predicate ParentsPresent(events: seq<SignedEvent>) {
    forall e, p :: e in events && p in e.content.parents ==> p in IdsOf(events)
  }

  /** `validate_wire`: the first check the archive fails. */
  function WireFault(crypto: Crypto, archive: Archive): Option<ArchiveError> {
    var events := archive.events;
    if archive.version != ARCHIVE_VERSION then Some(ArchiveError.UnsupportedVersion)
    else if events == [] || |events| > MAX_ARCHIVE_EVENTS then Some(EventLimit)
    else if !WindowsAscend(events) then Some(InvalidOrder)
    else if FirstFault(crypto, events).Some? then Some(ArchiveError.InvalidEvent(FirstFault(crypto, events).value))
    else if !OneGenesis(events, archive.community) then Some(ArchiveError.InvalidGenesis)
    else if HasForeigner(events, archive.community) then Some(ArchiveError.WrongCommunity)
    else if !ParentsPresent(events) then Some(MissingParent)
    else None
  }

  lemma {:induction false} WindowsReach(events: seq<SignedEvent>, i: nat, j: nat)
    requires WindowsAscend(events) && i < j < |events|
    ensures events[i].id < events[j].id
    decreases j
  {
    if i < j - 1 {
      WindowsReach(events, i, j - 1);
    }
    assert events[j - 1].id < events[j - 1 + 1].id;
  }

  /** Comparing neighbours is comparing all pairs. */
  lemma WindowsAreEnough(events: seq<SignedEvent>)
    ensures WindowsAscend(events) <==> SortedEvents(events)
  {
    if WindowsAscend(events) {
      forall i, j | 0 <= i < j < |events|
        ensures events[i].id < events[j].id
      {
        WindowsReach(events, i, j);
      }
    }
  }

  /** What a valid archive is: a parent-closed listing, by id, of valid events of one community with its genesis. */
  ghost predicate Wholesome(crypto: Crypto, community: Id, events: seq<SignedEvent>) {
    && 0 < |events| <= MAX_ARCHIVE_EVENTS
    && SortedEvents(events)
    && (forall e :: e in events ==> ValidEvent(crypto, e) && Belongs(e, community))
    && (exists g :: g in events && IsGenesis(g))
    && ParentsPresent(events)
  }

  lemma {:induction false} GenesisInOrder(events: seq<SignedEvent>)
    requires SortedEvents(events)
    ensures SortedEvents(GenesisEvents(events))
  {
    if events != [] {
      var rest := GenesisEvents(events[1..]);
      GenesisInOrder(events[1..]);
      if IsGenesis(events[0]) {
        GenesisPrepend(events, rest);
      } else {
        assert GenesisEvents(events) == rest;
      }
    }
  }

  lemma GenesisPrepend(events: seq<SignedEvent>, rest: seq<SignedEvent>)
    requires events != [] && SortedEvents(events) && SortedEvents(rest)
    requires forall e :: e in rest ==> e in events[1..]
    ensures SortedEvents([events[0]] + rest)
  {
    var all := [events[0]] + rest;
    forall i, j | 0 <= i < j < |all|
      ensures all[i].id < all[j].id
    {
      assert all[j] == rest[j - 1] && rest[j - 1] in events[1..];
      if i > 0 {
        assert all[i] == rest[i - 1];
      }
    }
  }

  /** One genesis naming the community, and no other community: every event belongs to it. */
  lemma GenesisMeansBelonging(events: seq<SignedEvent>, community: Id)
    requires SortedEvents(events)
    ensures OneGenesis(events, community) && !HasForeigner(events, community)
            <==> (exists g :: g in events && IsGenesis(g)) && (forall e :: e in events ==> Belongs(e, community))
  {
    var genesis := GenesisEvents(events);
    GenesisInOrder(events);
    if |genesis| == 1 && genesis[0].id == community {
      assert genesis[0] in events;
      forall e | e in events && IsGenesis(e)
        ensures e.id == community
      {
        assert e in genesis;
      }
    }
    if (exists g :: g in events && IsGenesis(g)) && (forall e :: e in events ==> Belongs(e, community)) {
      var g :| g in events && IsGenesis(g);
      assert g in genesis;
      SameIdsAreOne(genesis, community);
    }
  }

  lemma SameIdsAreOne(events: seq<SignedEvent>, id: Id)
    requires SortedEvents(events) && events != [] && forall e :: e in events ==> e.id == id
    ensures |events| == 1 && events[0].id == id
  {
    assert events[0] in events;
    if |events| > 1 {
      TwoIds(events);
    }
  }

  lemma TwoIds(events: seq<SignedEvent>)
    requires SortedEvents(events) && |events| > 1
    ensures exists e, f :: e in events && f in events && e.id != f.id
  {
    assert events[0] in events && events[1] in events;
  }

  /** Validation accepts exactly the wholesome archives of the current version. */
  lemma ValidationIsExact(crypto: Crypto, archive: Archive)
    ensures WireFault(crypto, archive).None?
            <==> archive.version == ARCHIVE_VERSION && Wholesome(crypto, archive.community, archive.events)
  {
    var events, community := archive.events, archive.community;
    WindowsAreEnough(events);
    if SortedEvents(events) {
      GenesisMeansBelonging(events, community);
    }
  }

  /** There is a genesis, and every genesis is the community's. */
  ghost predicate GenesisIsOwn(events: seq<SignedEvent>, community: Id) {
    && (exists g :: g in events && g.content.community == None)
    && forall g :: g in events && g.content.community == None ==> g.id == community
  }

  lemma OneGenesisIs(events: seq<SignedEvent>, community: Id)
    requires SortedEvents(events)
    ensures OneGenesis(events, community) <==> GenesisIsOwn(events, community)
  {
    var genesis := GenesisEvents(events);
    GenesisInOrder(events);
    if OneGenesis(events, community) {
      assert genesis[0] in events;
    }
    if GenesisIsOwn(events, community) {
      var g :| g in events && g.content.community == None;
      assert g in genesis;
      SameIdsAreOne(genesis, community);
    }
  }

  /** Each reason for refusing an archive means that its check fails, and that the checks before it pass. */
  lemma ArchiveFaultIs(crypto: Crypto, archive: Archive)
    requires WireFault(crypto, archive).Some?
    ensures var events := archive.events;
            var numbered := archive.version == 1 && 1 <= |events| <= 65_536;
            var listed := numbered && SortedEvents(events);
            var valid := listed && FirstFault(crypto, events) == None;
            var founded := valid && GenesisIsOwn(events, archive.community);
            match WireFault(crypto, archive).value
            case UnsupportedVersion => archive.version != 1
            case EventLimit => archive.version == 1 && !numbered
            case InvalidOrder => numbered && !listed
            case InvalidEvent(fault) => listed && FirstFault(crypto, events) == Some(fault)
            case InvalidGenesis => valid && !founded
            case WrongCommunity => founded && HasForeigner(events, archive.community)
            case MissingParent => founded && !HasForeigner(events, archive.community) && !ParentsPresent(events)
            case _ => false
  {
    WindowsAreEnough(archive.events);
    if SortedEvents(archive.events) {
      OneGenesisIs(archive.events, archive.community);
    }
  }

  // ------------------------------------------------------------------ encoding

  function InsertById(event: SignedEvent, sorted: seq<SignedEvent>): (r: seq<SignedEvent>)
    ensures multiset(r) == multiset{event} + multiset(sorted)
  {
    if sorted == [] || event.id <= sorted[0].id then [event] + sorted
    else
      var r := [sorted[0]] + InsertById(event, sorted[1..]);
      assert sorted == [sorted[0]] + sorted[1..];
      r
  }

  /** The stable sort by event id. */
  function SortedById(events: seq<SignedEvent>): (r: seq<SignedEvent>)
    ensures multiset(r) == multiset(events)
  {
    if events == [] then []
    else
      assert events == [events[0]] + events[1..];
      InsertById(events[0], SortedById(events[1..]))
  }

  predicate NeverDescends(events: seq<SignedEvent>) {
    forall i, j :: 0 <= i < j < |events| ==> events[i].id <= events[j].id
  }

  lemma {:induction false} InsertKeepsOrder(event: SignedEvent, sorted: seq<SignedEvent>)
    requires NeverDescends(sorted)
    ensures NeverDescends(InsertById(event, sorted))
  {
    if !(sorted == [] || event.id <= sorted[0].id) {
      InsertKeepsOrder(event, sorted[1..]);
      InsertedAmong(event, sorted[1..]);
      FirstIsLeast(sorted[0], InsertById(event, sorted[1..]));
    }
  }

  lemma InsertedAmong(event: SignedEvent, sorted: seq<SignedEvent>)
    ensures forall e :: e in InsertById(event, sorted) ==> e == event || e in sorted
  {
    var r := InsertById(event, sorted);
    forall e | e in r
      ensures e == event || e in sorted
    {
      assert e in multiset(r);
    }
  }

  lemma FirstIsLeast(first: SignedEvent, rest: seq<SignedEvent>)
    requires NeverDescends(rest) && forall e :: e in rest ==> first.id <= e.id
    ensures NeverDescends([first] + rest)
  {
  }

  lemma {:induction false} SortedByIdAscends(events: seq<SignedEvent>)
    ensures NeverDescends(SortedById(events))
  {
    if events != [] {
      SortedByIdAscends(events[1..]);
      InsertKeepsOrder(events[0], SortedById(events[1..]));
    }
  }

  /** `archive::encode`, up to the JSON text. */
  function Encode(crypto: Crypto, community: Id, events: seq<SignedEvent>): Result<Archive, ArchiveError> {
    var archive := Archive(ARCHIVE_VERSION, community, SortedById(events));
    if WireFault(crypto, archive).Some? then Err(WireFault(crypto, archive).value)
    else if ArchiveJson(archive) > MAX_ARCHIVE_BYTES then Err(ArchiveError.TooLarge)
    else Ok(archive)
  }

  /** Encoding succeeds exactly when the sorted events make a wholesome archive of at most 64 MiB. */
  lemma EncodingIs(crypto: Crypto, community: Id, events: seq<SignedEvent>)
    ensures var archive, r := Archive(1, community, SortedById(events)), Encode(crypto, community, events);
            && (r == Ok(archive) <==>
                  Wholesome(crypto, community, archive.events) && ArchiveJson(archive) <= 67_108_864)
            && (r.Ok? ==> r.value == archive)
            && (r == Err(ArchiveError.TooLarge) <==>
                  Wholesome(crypto, community, archive.events) && ArchiveJson(archive) > 67_108_864)
  {
    ValidationIsExact(crypto, Archive(1, community, SortedById(events)));
  }

  /** Strictly ascending listings with the same events are the same listing. */
  lemma {:induction false} SortedListingIsUnique(a: seq<SignedEvent>, b: seq<SignedEvent>)
    requires SortedEvents(a) && SortedEvents(b)
    requires forall e :: e in a <==> e in b
    ensures a == b
  {
    if a == [] {
      if b != [] {
        HasMember(b);
      }
    } else {
      assert a[0] in b;
      assert b[0] in a;
      assert a[0] == b[0];
      forall e
        ensures e in a[1..] <==> e in b[1..]
      {
        TailOfSorted(a, e);
        TailOfSorted(b, e);
      }
      SortedListingIsUnique(a[1..], b[1..]);
    }
  }

  lemma HasMember(a: seq<SignedEvent>)
    requires a != []
    ensures exists e :: e in a
  {
    assert a[0] in a;
  }

  lemma TailOfSorted(a: seq<SignedEvent>, e: SignedEvent)
    requires SortedEvents(a) && a != []
    ensures e in a[1..] <==> e in a && e != a[0]
  {
  }

  lemma SortsTo(events: seq<SignedEvent>, sorted: seq<SignedEvent>)
    requires SortedEvents(sorted) && multiset(events) == multiset(sorted)
    ensures SortedById(events) == sorted
  {
    var r := SortedById(events);
    SortedByIdAscends(events);
    NoDuplicates(sorted);
    forall i, j | 0 <= i < j < |r|
      ensures r[i].id < r[j].id
    {
      TwiceMeansEqual(r, sorted, i, j);
    }
    forall e
      ensures e in r <==> e in sorted
    {
      assert e in r <==> e in multiset(r);
      assert e in sorted <==> e in multiset(sorted);
    }
    SortedListingIsUnique(r, sorted);
  }

  lemma {:induction false} NoDuplicates(sorted: seq<SignedEvent>)
    requires SortedEvents(sorted)
    ensures forall e :: multiset(sorted)[e] <= 1
  {
    if sorted != [] {
      NoDuplicates(sorted[1..]);
      assert sorted == [sorted[0]] + sorted[1..];
      assert sorted[0] !in sorted[1..];
    }
  }

  /** Two places of a permutation of a strictly ascending listing hold different ids. */
  lemma TwiceMeansEqual(r: seq<SignedEvent>, sorted: seq<SignedEvent>, i: nat, j: nat)
    requires multiset(r) == multiset(sorted) && SortedEvents(sorted) && i < j < |r|
    requires forall e :: multiset(sorted)[e] <= 1
    ensures r[i].id != r[j].id
  {
    assert r[i] in multiset(sorted) && r[j] in multiset(sorted);
    if r[i] == r[j] {
      CountsTwice(r, i, j);
    }
  }

  lemma CountsTwice(r: seq<SignedEvent>, i: nat, j: nat)
    requires i < j < |r| && r[i] == r[j]
    ensures multiset(r)[r[i]] >= 2
  {
    assert r == r[..i] + [r[i]] + r[i + 1..j] + [r[j]] + r[j + 1..];
  }

  /** However the events are listed, the archive is the same. */
  lemma EncodingIgnoresOrder(crypto: Crypto, community: Id, events: seq<SignedEvent>, sorted: seq<SignedEvent>)
    requires SortedEvents(sorted) && multiset(events) == multiset(sorted)
    ensures Encode(crypto, community, events) == Encode(crypto, community, sorted)
    ensures Encode(crypto, community, events).Ok? ==> Encode(crypto, community, events).value.events == sorted
  {
    SortsTo(events, sorted);
    SortsTo(sorted, sorted);
  }

  // ------------------------------------------------------------------ exporting a node

  /** `all_events`: the known events by id. */
  function Export(node: NodeState): seq<SignedEvent> {
    StoredEvents(node.store, Ascending(node.known))
  }

  lemma ExportIsKnown(crypto: Crypto, node: NodeState)
    requires Sound(crypto, node)
    ensures SortedEvents(Export(node)) && IdsOf(Export(node)) == node.known <= node.store.Keys
    ensures forall e :: e in Export(node) <==> e.id in node.known && node.store[e.id] == e
  {
    GroundedHoldsParents(node.store, node.known);
    SyncTheorems.StoredEventsAreServable(crypto, node.store, Ascending(node.known));
    ListedAreKnown(node.store, node.known, Ascending(node.known), Export(node));
  }

  lemma ListedAreKnown(store: Events, known: set<Id>, ids: seq<Id>, events: seq<SignedEvent>)
    requires known <= store.Keys && Elements(ids) == known && (forall i :: i in store ==> store[i].id == i)
    requires forall e :: e in events ==> e.id in ids && e.id in store && store[e.id] == e
    requires forall i :: i in ids && i in store ==> store[i] in events
    ensures IdsOf(events) == known
    ensures forall e :: e in events <==> e.id in known && store[e.id] == e
  {
    forall x | x in known
      ensures x in ids && x in IdsOf(events)
    {
      assert x in Elements(ids);
      assert store[x] in events && store[x].id == x;
    }
    forall e | e in events
      ensures e.id in known
    {
      assert e.id in Elements(ids);
    }
  }

  lemma {:induction false} NoMoreThanIds(store: Events, ids: seq<Id>)
    ensures |StoredEvents(store, ids)| <= |ids|
  {
    if ids != [] {
      NoMoreThanIds(store, ids[1..]);
    }
  }

  lemma ExportBelongs(crypto: Crypto, node: NodeState, e: SignedEvent)
    requires Sound(crypto, node) && node.community.Some? && e.id in node.known
    requires e.id in node.store && node.store[e.id] == e
    ensures ValidEvent(crypto, e) && Belongs(e, node.community.value)
    ensures forall p :: p in e.content.parents ==> p in node.known
  {
    GroundedHoldsParents(node.store, node.known);
    assert forall p :: p in e.content.parents ==> p in Parents(node.store[e.id]);
  }

  lemma GenesisIsKnown(crypto: Crypto, node: NodeState)
    requires Sound(crypto, node) && node.community.Some?
    ensures exists g :: g in node.known && g in node.store && IsGenesis(node.store[g])
  {
    if forall g :: g in node.known && g in node.store ==> !IsGenesis(node.store[g]) {
      forall x | x in node.known && x in node.store
        ensures !(Parents(node.store[x]) <= {})
      {
        assert ValidEvent(crypto, node.store[x]);
        assert node.store[x].content.parents[0] in Parents(node.store[x]);
      }
      GroundedInduction(node.store, node.known, {});
    }
  }

  /** Every sound node of a community with at most 65,536 events exports a valid archive. */
  lemma ExportIsWholesome(crypto: Crypto, node: NodeState)
    requires Sound(crypto, node) && node.community.Some? && |node.known| <= MAX_ARCHIVE_EVENTS
    ensures Wholesome(crypto, node.community.value, Export(node))
  {
    var events := Export(node);
    ExportIsKnown(crypto, node);
    NoMoreThanIds(node.store, Ascending(node.known));
    GenesisIsKnown(crypto, node);
    var g: Id :| g in node.known && g in node.store && IsGenesis(node.store[g]);
    assert node.store[g].id == g;
    assert node.store[g] in events;
    forall e | e in events
      ensures ValidEvent(crypto, e) && Belongs(e, node.community.value)
      ensures forall p :: p in e.content.parents ==> p in IdsOf(events)
    {
      ExportBelongs(crypto, node, e);
    }
  }

  /** So does every node reached by ingesting any batches. */
  lemma ReachableExports(crypto: Crypto, store: Events, batches: seq<seq<SignedEvent>>)
    requires SoundStore(crypto, store) && Coherent(crypto, NodeState(store, None, {}), batches)
    ensures var node := AfterBatches(crypto, NodeState(store, None, {}), batches);
            node.community.Some? && |node.known| <= MAX_ARCHIVE_EVENTS ==>
              Wholesome(crypto, node.community.value, Export(node))
  {
    var node := AfterBatches(crypto, NodeState(store, None, {}), batches);
    ReachableIsSound(crypto, store, batches);
    if node.community.Some? && |node.known| <= MAX_ARCHIVE_EVENTS {
      ExportIsWholesome(crypto, node);
    }
  }

  /** It is refused only when its JSON exceeds 64 MiB. */
  lemma ExportSucceeds(crypto: Crypto, node: NodeState)
    requires Sound(crypto, node) && node.community.Some? && |node.known| <= MAX_ARCHIVE_EVENTS
    ensures var archive := Archive(ARCHIVE_VERSION, node.community.value, Export(node));
            Encode(crypto, node.community.value, Export(node))
            == if ArchiveJson(archive) > MAX_ARCHIVE_BYTES then Err(ArchiveError.TooLarge) else Ok(archive)
  {
    ExportIsWholesome(crypto, node);
    ValidationIsExact(crypto, Archive(ARCHIVE_VERSION, node.community.value, Export(node)));
    SortsTo(Export(node), Export(node));
  }
}
