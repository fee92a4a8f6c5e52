/**
 The committed database and what the core runs, together: when they agree, and which requests keep them so.
 */
module PanelState {
  import opened ClientSaves
  import opened Clients
  import opened Coherence
  import opened EgressTables
  import opened Rendering
  import opened UintArrays
  import opened Wrappers
  import EgressStore
  import InboundSaves
  import OutboundSaves

  function ClientRows(db: Database): Rows {
    Rows(db.clients, db.nextClient)
  }

  function InboundRows(db: Database): InboundSaves.InboundRows {
    InboundSaves.InboundRows(db.clients, db.inbounds, db.nextInbound)
  }

  /** What the schema guarantees: primary keys and unique tags. */
  ghost predicate Keyed(db: Database) {
    && ClientSaves.IdsBelowNext(ClientRows(db)) && InboundSaves.Sound(InboundRows(db))
    && TagsUnique(db.tables) && EgressTables.IdsBelowNext(db.tables) && OutboundSaves.TagsGiven(db.tables.outbounds)
  }

  /** Clients refer to existing inbounds, and no inbound has an empty tag. */
  ghost predicate Orderly(db: Database) {
    InboundSaves.Referring(db.clients, db.inbounds) && InboundSaves.TagsGiven(db.inbounds)
  }

  /** The committed database, and what the core runs, if it runs. */
  datatype State = State(db: Database, running: Option<Config>)

  /** If the core runs, its inbounds with their users and its outbounds are those of the full rendering. */
  ghost predicate Agrees(s: State) {
    s.running.Some? ==>
      && Shows(s.running.value.inbounds, s.db.clients, s.db.inbounds)
      && ShowsOutbounds(s.running.value.outbounds, s.db.tables.outbounds)
  }

  /** If the core runs, it runs the full rendering. */
  ghost predicate AgreesFully(s: State) {
    s.running.Some? ==> ShowsAll(s.running.value, s.db)
  }

  datatype SaveRequest =
    | ForClients(clients: ClientRequest)
    | ForInbounds(inbounds: InboundSaves.InboundRequest)
    | ForOutbounds(outbounds: OutboundSaves.OutboundRequest)

  predicate InboundsExist(entries: seq<Entry>, inbounds: InboundTable) {
    forall k, i :: 0 <= k < |entries| && i in entries[k].client.inbounds ==> i in inbounds
  }

  /** A request after which the patched core shows all there is: a new client does not overwrite one that is enabled
      elsewhere, a bulk addition changes nothing outside the inbounds of its first client, a new inbound has the users
      given and, like a new outbound, overwrites no row of another tag. */
  predicate Fits(db: Database, request: SaveRequest) {
    match request
    case ForClients(c) =>
      && (c.NewClient? ==> NewReportsAll(ClientRows(db), c.entry, db.inbounds))
      && (c.AddBulk? && c.entries != [] ==> BulkReportsAll(ClientRows(db), c.entries, db.inbounds))
    case ForInbounds(r) => InboundFits(InboundRows(db), r)
    case ForOutbounds(r) => r.NewOutbound? ==> OutboundSaves.NewOutboundFits(db.tables, r.id, r.outbound)
  }

  /** Clients are given existing inbounds, and inbounds a tag. */
  predicate Legal(db: Database, request: SaveRequest) {
    match request
    case ForClients(NewClient(e)) => InboundsExist([e], db.inbounds)
    case ForClients(EditClient(e)) => InboundsExist([e], db.inbounds)
    case ForClients(AddBulk(entries)) => InboundsExist(entries, db.inbounds)
    case ForClients(EditBulk(entries)) => InboundsExist(entries, db.inbounds)
    case ForInbounds(r) => !r.DeleteInbound? ==> r.inbound.tag != ""
    case _ => true
  }

  predicate Proper(db: Database, request: SaveRequest) {
    Fits(db, request) && Legal(db, request)
  }

  /** What a request needs to be carried out when no step fails of itself. */
  ghost predicate CanSave(db: Database, request: SaveRequest) {
    match request
    case ForClients(c) => ClientSaves.Possible(ClientRows(db), c)
    case ForInbounds(r) => InboundSaves.Possible(InboundRows(db), r)
    case ForOutbounds(r) => OutboundSaves.Possible(db.tables, r)
  }

  /** The rows a request leaves behind. */
  ghost predicate Written(db: Database, request: SaveRequest, after: Database) {
    match request
    case ForClients(c) =>
      var rows := ClientSaves.Saved(ClientRows(db), c);
      after == db.(clients := rows.table, nextClient := rows.next)
    case ForInbounds(r) =>
      var rows := InboundSaves.Saved(InboundRows(db), r);
      after == db.(clients := rows.clients, inbounds := rows.inbounds, nextInbound := rows.next)
    case ForOutbounds(r) =>
      && after == db.(tables := after.tables) && after.tables.outbounds == OutboundSaves.Written(db.tables, r)
      && after.tables.endpoints == db.tables.endpoints && after.tables.managed == db.tables.managed
  }

  lemma SavedClientsKeepReferences(db: Database, request: ClientRequest)
    requires Legal(db, ForClients(request)) && InboundSaves.Referring(db.clients, db.inbounds)
    ensures InboundSaves.Referring(ClientSaves.Saved(ClientRows(db), request).table, db.inbounds)
  {
    match request
    case NewClient(e) => PutAllKeepsReferences(ClientRows(db), [e], db.inbounds);
    case EditClient(e) => PutAllKeepsReferences(ClientRows(db), [e], db.inbounds);
    case AddBulk(entries) => PutAllKeepsReferences(ClientRows(db), entries, db.inbounds);
    case EditBulk(entries) => PutAllKeepsReferences(ClientRows(db), FilledEntries(db.clients, entries), db.inbounds);
    case DeleteBulk(ids) =>
    case DeleteClient(id) =>
  }

  lemma WrittenKeepsOrder(db: Database, request: SaveRequest, after: Database)
    requires Keyed(db) && Orderly(db) && Legal(db, request) && Written(db, request, after)
    ensures Orderly(after)
  {
    hide Keyed, ClientSaves.Saved, InboundSaves.Saved, OutboundSaves.Written;
    match request
    case ForClients(c) => SavedClientsKeepReferences(db, c);
    case ForInbounds(r) =>
      KeyedSound(db);
      SavedKeepsReferences(InboundRows(db), r);
      SavedKeepsTags(InboundRows(db), r);
    case ForOutbounds(r) =>
  }

  lemma KeyedSound(db: Database)
    requires Keyed(db)
    ensures ClientSaves.IdsBelowNext(ClientRows(db)) && InboundSaves.Sound(InboundRows(db))
    ensures InboundTagsUnique(db.inbounds) && OutboundTagsUnique(db.tables.outbounds)
    ensures EgressTables.IdsBelowNext(db.tables) && OutboundSaves.TagsGiven(db.tables.outbounds)
  {
  }

  lemma KeyedTables(db: Database)
    requires Keyed(db)
    ensures TagsUnique(db.tables) && EgressTables.IdsBelowNext(db.tables) && OutboundSaves.TagsGiven(db.tables.outbounds)
    ensures OutboundTagsUnique(db.tables.outbounds) && EgressStore.Keyed(db.tables)
  {
  }

  /** The report of a client request covers every inbound it affects exactly if the request fits. */
  lemma ReportExact(db: Database, request: ClientRequest)
    requires Keyed(db) && CanSave(db, ForClients(request))
    ensures Covered(db.clients, ClientSaves.Saved(ClientRows(db), request).table, db.inbounds, Report(db.clients, request)) <==>
      Fits(db, ForClients(request))
  {
    hide Covered, Unaffected, NewReportsAll, BulkReportsAll, Put, PutAll, EditReport;
    KeyedSound(db);
    match request
    case NewClient(e) => NewClientExact(ClientRows(db), e, db.inbounds);
    case AddBulk(entries) => AddBulkExact(ClientRows(db), entries, db.inbounds);
    case _ =>
      ReportComplete(ClientRows(db), request);
      UnaffectedCovered(db.clients, ClientSaves.Saved(ClientRows(db), request).table, db.inbounds, Report(db.clients, request));
  }

  // ---------------------------------------------------------------- the core after a save

  /** What a save makes of the running core. Saved clients: the reported inbounds are restarted with the new rows.
      A saved inbound or outbound: the running ones are patched. Nothing else is touched. */
  ghost predicate Follows(db: Database, request: SaveRequest, before: Config, after: Config) {
    match request
    case ForClients(c) =>
      && after == before.(inbounds := after.inbounds)
      && InboundSaves.Restarted(before.inbounds, after.inbounds, ClientSaves.Saved(ClientRows(db), c).table, db.inbounds,
                                Report(db.clients, c))
    case ForInbounds(r) => after == before.(inbounds := InboundSaves.Patched(before.inbounds, InboundRows(db), r))
    case ForOutbounds(r) => after == before.(outbounds := OutboundSaves.Patched(before.outbounds, db.tables, r))
  }

  /** After a save a running core that agreed with the rows before agrees with the new ones exactly if the request
      fits. */
  lemma SaveExact(db: Database, request: SaveRequest, before: Config, staged: Database, after: Config)
    requires Keyed(db) && Orderly(db) && Agrees(State(db, Some(before)))
    requires CanSave(db, request) && Written(db, request, staged) && Keyed(staged) && Follows(db, request, before, after)
    ensures Agrees(State(staged, Some(after))) <==> Fits(db, request)
  {
    hide Shows, ShowsOutbounds, Covered, InboundFits, OutboundSaves.NewOutboundFits, InboundSaves.Restarted, CanSave;
    hide ClientSaves.Saved, InboundSaves.Saved, OutboundSaves.Written, InboundSaves.Patched, OutboundSaves.Patched, Keyed, Report;
    KeyedSound(db);
    KeyedSound(staged);
    match request
    case ForClients(c) =>
      var u := ClientSaves.Saved(ClientRows(db), c).table;
      ReportExact(db, c);
      RestartExact(before.inbounds, after.inbounds, db.clients, u, db.inbounds, Report(db.clients, c));
    case ForInbounds(r) =>
      InboundsShown(before.inbounds, InboundRows(db), r);
    case ForOutbounds(r) =>
      OutboundSaves.OutboundsShown(before.outbounds, db.tables, r);
  }
}
