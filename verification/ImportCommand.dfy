/**
 The export and import commands (crates/cli/src/main.rs:484-541): an archive is validated, projected,
 ingested into the database it belongs to, and projected again.
 */
module ImportCommand {
  import opened Wrappers
  import opened Protocol
  import opened Ordering
  import opened Closure
  import opened Node
  import opened NodeTheorems
  import opened SyncMessages
  import opened ByteCount
  import opened Archives
  import opened Import
  import opened Chat
  import opened Resolver
  import opened ResolveRounds
  import opened ResolverTheorems
  import SyncTheorems

  datatype CommandError =
    | InvalidArchive(fault: ArchiveError)
    | ProfileRejected
    | WrongDatabaseCommunity
    | Incomplete

  // ------------------------------------------------------------------ what a projection names

  /** Valid events of one community have at most one founder, its genesis. */
  lemma OnlyTheGenesisFounds(profile: Profile, s: Candidates, community: Id)
    requires Indexed(s) && forall i :: i in s ==> ValidEvent(profile.crypto, s[i]) && Belongs(s[i], community)
    ensures Founders(profile, s) == if community in s && Founds(profile, s[community]) then {community} else {}
  {
    forall x | x in Founders(profile, s)
      ensures x == community
    {
      assert ValidEvent(profile.crypto, s[x]);
    }
  }

  /** The projection of such events names the community exactly when its genesis founds one. */
  lemma ProjectionNamesTheCommunity(profile: Profile, s: Candidates, community: Id, r: ChatResolution)
    requires Indexed(s) && forall i :: i in s ==> ValidEvent(profile.crypto, s[i]) && Belongs(s[i], community)
    requires Resolves(profile, s, r)
    ensures r.snapshot.state.community == Some(community) <==> community in s && Founds(profile, s[community])
  {
    OnlyTheGenesisFounds(profile, s, community);
    CommunityIsLeastFounder(profile, s, r.acceptedInOrder);
  }

  /** The events contain the community's genesis, and it founds a chat. */
  ghost predicate Founded(profile: Profile, community: Id, events: seq<SignedEvent>) {
    exists g :: g in events && g.id == community && Founds(profile, g)
  }

  lemma FoundedInIndex(profile: Profile, community: Id, events: seq<SignedEvent>)
    requires NoCollisions(events)
    ensures Founded(profile, community, events) <==>
              community in Index(events) && Founds(profile, Index(events)[community])
  {
    if community in Index(events) {
      var e :| e in events && e.id == community;
      assert Index(events)[community] == e;
    }
  }

  /** `resolve` on valid events of one community, and whether it names that community. */
  method Projects(profile: Profile, community: Id, events: seq<SignedEvent>) returns (named: bool)
    requires NoCollisions(events) && AllOf(profile.crypto, community, events)
    ensures named <==> Founded(profile, community, events)
  {
    var r := Resolve(profile, events);
    IndexIsOf(profile.crypto, community, events);
    ProjectionNamesTheCommunity(profile, Index(events), community, r.value);
    FoundedInIndex(profile, community, events);
    return r.value.snapshot.state.community == Some(community);
  }

  lemma IndexIsOf(crypto: Crypto, community: Id, events: seq<SignedEvent>)
    requires NoCollisions(events) && AllOf(crypto, community, events)
    ensures Indexed(Index(events))
    ensures forall i :: i in Index(events) ==>
              ValidEvent(crypto, Index(events)[i]) && Belongs(Index(events)[i], community)
  {
    forall i | i in Index(events)
      ensures Index(events)[i] in events
    {
      var e :| e in events && e.id == i;
    }
  }

  // ------------------------------------------------------------------ the database

  predicate HasRows(store: Events, community: Id) {
    exists i :: i in store && Belongs(store[i], community)
  }

  /** The node the command opens: for the community, unless the database is empty. */
  function Opened(store: Events, community: Id): NodeState {
    NodeState(store, if store == map[] then None else Some(community),
              set i | i in store && Belongs(store[i], community))
  }

  lemma OpenedIsOpen(store: Events, community: Id)
    ensures OpenTo(community, Opened(store, community))
  {
  }

  /** The node after a successful import. */
  function After(store: Events, community: Id, events: seq<SignedEvent>): NodeState {
    var new_ := NewEvents(events, Opened(store, community).known);
    TakenIn(Opened(store, community), new_, new_.Keys, community)
  }

  /** Everything the node knows afterwards is valid and of the community, and its genesis is the archive's. */
  lemma AfterIsOf(crypto: Crypto, store: Events, community: Id, events: seq<SignedEvent>)
    requires SoundStore(crypto, store) && NoClash(store, events) && AllOf(crypto, community, events)
    ensures var after := After(store, community, events);
            && SoundStore(crypto, after.store) && after.known <= after.store.Keys
            && (forall i :: i in after.known ==> Belongs(after.store[i], community))
            && (forall e :: e in events ==> e.id in after.known && after.store[e.id] == e)
  {
    var found := Opened(store, community);
    var new_ := NewEvents(events, found.known);
    forall i | i in new_
      ensures new_[i] in events && new_[i].id == i
    {
    }
    RowsAfter(crypto, store, community, events, found.known, new_, After(store, community, events).store);
  }

  lemma RowsAfter(
    crypto: Crypto, store: Events, community: Id, events: seq<SignedEvent>, known: set<Id>, new_: Events,
    store': Events)
    requires SoundStore(crypto, store) && NoClash(store, events) && AllOf(crypto, community, events)
    requires known == set i | i in store && Belongs(store[i], community)
    requires new_ == BatchOf(events) - known && store' == Stored(store, new_, new_.Keys)
    requires forall i :: i in new_ ==> new_[i] in events && new_[i].id == i
    ensures SoundStore(crypto, store') && known + new_.Keys <= store'.Keys
    ensures forall i :: i in known + new_.Keys ==> Belongs(store'[i], community)
    ensures forall e :: e in events ==> e.id in known + new_.Keys && store'[e.id] == e
  {
    forall e | e in events
      ensures e.id in known + new_.Keys && e.id in store' && store'[e.id] == e
    {
      RowOf(store, events, known, new_, store', e);
    }
    NewRows(crypto, store, events, new_, store');
    forall i | i in known + new_.Keys
      ensures i in store' && Belongs(store'[i], community)
    {
      RowBelongs(crypto, store, community, events, known, new_, store', i);
    }
  }

  lemma RowBelongs(
    crypto: Crypto, store: Events, community: Id, events: seq<SignedEvent>, known: set<Id>, new_: Events,
    store': Events, i: Id)
    requires AllOf(crypto, community, events) && store' == Stored(store, new_, new_.Keys)
    requires known == set i | i in store && Belongs(store[i], community)
    requires i in new_ ==> new_[i] in events && i in store' && store'[i] == new_[i]
    requires i in known + new_.Keys
    ensures i in store' && Belongs(store'[i], community)
  {
  }

  lemma RowOf(store: Events, events: seq<SignedEvent>, known: set<Id>, new_: Events, store': Events, e: SignedEvent)
    requires NoClash(store, events) && e in events && known <= store.Keys
    requires new_ == BatchOf(events) - known && store' == Stored(store, new_, new_.Keys)
    ensures e.id in known + new_.Keys && e.id in store' && store'[e.id] == e
  {
    assert e.id in BatchOf(events) && BatchOf(events)[e.id] in events;
  }

  lemma NewRows(crypto: Crypto, store: Events, events: seq<SignedEvent>, new_: Events, store': Events)
    requires SoundStore(crypto, store) && NoClash(store, events) && FirstFault(crypto, events).None?
    requires store' == Stored(store, new_, new_.Keys)
    requires forall i :: i in new_ ==> new_[i] in events && new_[i].id == i
    ensures SoundStore(crypto, store')
    ensures forall i :: i in new_ ==> i in store' && store'[i] == new_[i]
  {
  }

  /** Listing what is known gives distinct valid events of the community. */
  lemma ListingIsOf(crypto: Crypto, community: Id, node: NodeState)
    requires SoundStore(crypto, node.store) && node.known <= node.store.Keys
    requires forall i :: i in node.known ==> Belongs(node.store[i], community)
    ensures NoCollisions(Export(node)) && AllOf(crypto, community, Export(node))
    ensures forall e :: e in Export(node) <==> e.id in node.known && node.store[e.id] == e
  {
    SyncTheorems.StoredEventsAreServable(crypto, node.store, Ascending(node.known));
    ListedAreKnown(node.store, node.known, Ascending(node.known), Export(node));
  }

  /** A chat that was founded in the archive is founded in what is known afterwards. */
  lemma StillFounded(profile: Profile, store: Events, community: Id, events: seq<SignedEvent>)
    requires SoundStore(profile.crypto, store) && NoClash(store, events) && AllOf(profile.crypto, community, events)
    requires Founded(profile, community, events)
    ensures Founded(profile, community, Export(After(store, community, events)))
  {
    var after := After(store, community, events);
    AfterIsOf(profile.crypto, store, community, events);
    ListingIsOf(profile.crypto, community, after);
    var g :| g in events && g.id == community && Founds(profile, g);
    assert g in Export(after);
  }

  // ------------------------------------------------------------------ the import command

  /** How many rows the import writes, and how many of the archive's events were known. */
  function CountsOf(store: Events, community: Id, events: seq<SignedEvent>): (nat, nat) {
    var known := Opened(store, community).known;
    (|NewEvents(events, known).Keys - store.Keys|, CountKnown(events, known))
  }

  /** What an import answers before it touches the database. */
  ghost function CommandFault(profile: Profile, store: Events, archive: Archive): Option<CommandError> {
    if WireFault(profile.crypto, archive).Some? then Some(InvalidArchive(WireFault(profile.crypto, archive).value))
    else if !Founded(profile, archive.community, archive.events) then Some(ProfileRejected)
    else if store != map[] && !HasRows(store, archive.community) then Some(WrongDatabaseCommunity)
    else
      var known := Opened(store, archive.community).known;
      var new_ := NewEvents(archive.events, known);
      if Absorbed(known, new_) != new_.Keys then Some(Incomplete) else None
  }

  lemma ValidArchiveIsOf(crypto: Crypto, archive: Archive)
    requires WireFault(crypto, archive).None?
    ensures NoCollisions(archive.events) && AllOf(crypto, archive.community, archive.events)
  {
    ValidationIsExact(crypto, archive);
    SortedHasNoCollisions(archive.events);
  }

  lemma SortedHasNoCollisions(events: seq<SignedEvent>)
    requires SortedEvents(events)
    ensures NoCollisions(events)
  {
    forall e, f | e in events && f in events && e.id == f.id
      ensures e == f
    {
      var i :| 0 <= i < |events| && events[i] == e;
      var j :| 0 <= j < |events| && events[j] == f;
      assert !(i < j) && !(j < i);
    }
  }

  /** Opens the database as the command does. */
  method OpenFor(store: Events, community: Id) returns (core: CoreNode)
    requires store == map[] || HasRows(store, community)
    ensures fresh(core) && core.View() == Opened(store, community)
  {
    var result := CoreNode.Open(store, if store == map[] then None else Some(community));
    core := result.value;
  }

  /**
   `import-community`: refused exactly for an invalid archive, a genesis that founds no chat, a database
   of another community, or new events that form a ring; otherwise the node knows the archive's events
   too, and the projection of all it knows names the community.
   */
  method ImportCommunity(profile: Profile, store: Events, archive: Archive)
    returns (r: Result<(CoreNode, nat, nat), CommandError>)
    requires SoundStore(profile.crypto, store) && NoClash(store, archive.events)
    ensures r.Err? <==> CommandFault(profile, store, archive).Some?
    ensures r.Err? ==> Some(r.error) == CommandFault(profile, store, archive)
    ensures r.Ok? ==> fresh(r.value.0) && r.value.0.View() == After(store, archive.community, archive.events)
                      && (r.value.1, r.value.2) == CountsOf(store, archive.community, archive.events)
  {
    if WireFault(profile.crypto, archive).Some? {
      return Err(InvalidArchive(WireFault(profile.crypto, archive).value));
    }
    ValidArchiveIsOf(profile.crypto, archive);
    var named := Projects(profile, archive.community, archive.events);
    if !named {
      return Err(ProfileRejected);
    }
    if store != map[] && !HasRows(store, archive.community) {
      return Err(WrongDatabaseCommunity);
    }
    r := IngestInto(profile, store, archive);
  }

  method IngestInto(profile: Profile, store: Events, archive: Archive)
    returns (r: Result<(CoreNode, nat, nat), CommandError>)
    requires SoundStore(profile.crypto, store) && NoClash(store, archive.events)
    requires AllOf(profile.crypto, archive.community, archive.events)
    requires Founded(profile, archive.community, archive.events)
    requires store == map[] || HasRows(store, archive.community)
    ensures var known := Opened(store, archive.community).known;
            var new_ := NewEvents(archive.events, known);
            && (r.Err? <==> Absorbed(known, new_) != new_.Keys) && (r.Err? ==> r.error == Incomplete)
            && (r.Ok? ==> fresh(r.value.0) && r.value.0.View() == After(store, archive.community, archive.events)
                          && (r.value.1, r.value.2) == CountsOf(store, archive.community, archive.events))
  {
    var core := OpenFor(store, archive.community);
    OpenedIsOpen(store, archive.community);
    var done := IngestArchive(profile.crypto, archive.community, core, archive.events);
    if done.Err? {
      return Err(Incomplete);
    }
    var named := Reprojects(profile, store, archive, core);
    return Ok((core, done.value.0, done.value.1));
  }

  /** The second projection always passes. */
  method Reprojects(profile: Profile, ghost store: Events, archive: Archive, core: CoreNode) returns (named: bool)
    requires SoundStore(profile.crypto, store) && NoClash(store, archive.events)
    requires AllOf(profile.crypto, archive.community, archive.events)
    requires Founded(profile, archive.community, archive.events)
    requires core.View() == After(store, archive.community, archive.events)
    ensures named
  {
    ghost var after := core.View();
    AfterIsOf(profile.crypto, store, archive.community, archive.events);
    ListingIsOf(profile.crypto, archive.community, after);
    StillFounded(profile, store, archive.community, archive.events);
    named := Projects(profile, archive.community, Export(core.View()));
  }

  // ------------------------------------------------------------------ moving a community

  /** What an export and import on an empty database answers. */
  ghost function TransferFault(profile: Profile, node: NodeState): Option<CommandError>
    requires node.community.Some?
  {
    var archive := Archive(ARCHIVE_VERSION, node.community.value, Export(node));
    if ArchiveJson(archive) > MAX_ARCHIVE_BYTES then Some(InvalidArchive(ArchiveError.TooLarge))
    else if !Founded(profile, node.community.value, Export(node)) then Some(ProfileRejected)
    else None
  }

  /** On an empty database, a sound node's archive is refused only if its genesis founds no chat. */
  lemma ExportIsImported(profile: Profile, node: NodeState)
    requires Sound(profile.crypto, node) && node.community.Some? && |node.known| <= MAX_ARCHIVE_EVENTS
    ensures var archive := Archive(ARCHIVE_VERSION, node.community.value, Export(node));
            && NoClash(map[], archive.events)
            && CommandFault(profile, map[], archive)
               == (if Founded(profile, node.community.value, Export(node)) then None else Some(ProfileRejected))
            && After(map[], node.community.value, archive.events)
               == NodeState(Only(node.store, node.known), node.community, node.known)
  {
    var archive := Archive(ARCHIVE_VERSION, node.community.value, Export(node));
    ExportIsValid(profile.crypto, node);
    EmptyIsOpened(node.community.value);
    RoundTrip(profile.crypto, node);
    FaultOnEmpty(profile, archive);
  }

  lemma ExportIsValid(crypto: Crypto, node: NodeState)
    requires Sound(crypto, node) && node.community.Some? && |node.known| <= MAX_ARCHIVE_EVENTS
    ensures WireFault(crypto, Archive(ARCHIVE_VERSION, node.community.value, Export(node))).None?
    ensures NoClash(map[], Export(node))
  {
    ExportIsWholesome(crypto, node);
    ValidationIsExact(crypto, Archive(ARCHIVE_VERSION, node.community.value, Export(node)));
    SortedHasNoCollisions(Export(node));
  }

  lemma EmptyIsOpened(community: Id)
    ensures Opened(map[], community) == Empty()
  {
  }

  lemma FaultOnEmpty(profile: Profile, archive: Archive)
    requires WireFault(profile.crypto, archive).None?
    requires var new_ := NewEvents(archive.events, Empty().known); Absorbed(Empty().known, new_) == new_.Keys
    ensures CommandFault(profile, map[], archive)
            == if Founded(profile, archive.community, archive.events) then None else Some(ProfileRejected)
  {
    EmptyIsOpened(archive.community);
  }

  /**
   Export followed by import on an empty database: refused only when the archive's JSON exceeds 64 MiB
   or the genesis founds no chat, and otherwise the new node is the old one, without rows of other
   communities.
   */
  method Transfer(profile: Profile, source: CoreNode) returns (r: Result<CoreNode, CommandError>)
    requires Sound(profile.crypto, source.View()) && source.community.Some? && |source.known| <= MAX_ARCHIVE_EVENTS
    ensures r.Err? <==> TransferFault(profile, source.View()).Some?
    ensures r.Err? ==> Some(r.error) == TransferFault(profile, source.View())
    ensures r.Ok? ==> fresh(r.value)
                      && r.value.View() == NodeState(Only(source.store, source.known), source.community, source.known)
  {
    ExportSucceeds(profile.crypto, source.View());
    var encoded := Encode(profile.crypto, source.community.value, Export(source.View()));
    if encoded.Err? {
      return Err(InvalidArchive(encoded.error));
    }
    r := Restore(profile, source.View(), encoded.value);
  }

  method Restore(profile: Profile, ghost node: NodeState, archive: Archive) returns (r: Result<CoreNode, CommandError>)
    requires Sound(profile.crypto, node) && node.community.Some? && |node.known| <= MAX_ARCHIVE_EVENTS
    requires archive == Archive(ARCHIVE_VERSION, node.community.value, Export(node))
    ensures r.Err? <==> !Founded(profile, node.community.value, Export(node))
    ensures r.Err? ==> r.error == ProfileRejected
    ensures r.Ok? ==> fresh(r.value)
                      && r.value.View() == NodeState(Only(node.store, node.known), node.community, node.known)
  {
    ExportIsImported(profile, node);
    var imported := ImportCommunity(profile, map[], archive);
    return if imported.Err? then Err(imported.error) else Ok(imported.value.0);
  }
}
