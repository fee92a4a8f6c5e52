/**
 Saving clients (service/client.go:132-273, 616-648): the rows are written, and the inbounds that may have other
 users afterwards are reported. Identifier 0 asks for a new row.
 */
module ClientSaves {
  import opened Clients
  import opened Rendering
  import opened UintArrays
  import opened Wrappers

  datatype Entry = Entry(id: nat, client: Client)

  datatype ClientRequest =
    | NewClient(entry: Entry)
    | EditClient(entry: Entry)
    | AddBulk(entries: seq<Entry>)
    | EditBulk(entries: seq<Entry>)
    | DeleteBulk(ids: seq<nat>)
    | DeleteClient(id: nat)

  /** The client table and the next free identifier. */
  datatype Rows = Rows(table: Table, next: nat)

  predicate IdsBelowNext(r: Rows) {
    r.next > 0 && forall id :: id in r.table ==> 0 < id < r.next
  }

  function KeyFor(r: Rows, id: nat): nat {
    if id == 0 then r.next else id
  }

  /** gorm's `Save` of one row: an insert or an overwrite. */
  function Put(r: Rows, e: Entry): Rows {
    var key := KeyFor(r, e.id);
    Rows(r.table[key := e.client], if key < r.next then r.next else key + 1)
  }

  function PutAll(r: Rows, entries: seq<Entry>): Rows {
    if entries == [] then r else Put(PutAll(r, entries[..|entries| - 1]), entries[|entries| - 1])
  }

  // ---------------------------------------------------------------- who is affected

  /** The settings of a client in an inbound, if it is enabled there. */
  function View(t: Table, id: nat, inbound: nat): Option<Settings> {
    if id in t then ViewOf(t[id], inbound) else None
  }

  function ViewOf(c: Client, inbound: nat): Option<Settings> {
    if c.enable && inbound in c.inbounds then Some(c.config) else None
  }

  /** The inbounds reported when a client is edited: all of both rows if the name, the settings or the flag differ,
      else those of one row only. The text of the settings, which the source compares, determines their parts. */
  function EditReport(before: Client, after: Client): set<nat> {
    var a, b := Members(before.inbounds), Members(after.inbounds);
    if before.config != after.config || before.name != after.name || before.enable != after.enable then a + b
    else (a - b) + (b - a)
  }

  /** `findInboundsChanges` for one client; `fillOmitted` takes the settings from the stored row. */
  method FindInboundsChanges(t: Table, e: Entry, fillOmitted: bool, reliable: bool) returns (r: Option<(Client, seq<nat>)>)
    ensures r.Some? ==> e.id in t && r.value.0 == Filled(t, e, fillOmitted)
    ensures r.Some? ==> Members(r.value.1) == EditReport(t[e.id], r.value.0)
    ensures if reliable then r.Some? <==> e.id in t else r.Some? ==> e.id in t
  {
    if e.id !in t {
      return None;
    }
    var fails: bool := *;
    if fails && !reliable {
      return None;
    }
    var oldClient := t[e.id];
    var client := e.client;
    if fillOmitted {
      client := client.(config := oldClient.config);
    }
    var ids: seq<nat>;
    if oldClient.config != client.config || oldClient.name != client.name || oldClient.enable != client.enable {
      ids := UnionUintArray(oldClient.inbounds, client.inbounds);
    } else {
      ids := DiffUintArray(oldClient.inbounds, client.inbounds);
    }
    r := Some((client, ids));
  }

  function Filled(t: Table, e: Entry, fillOmitted: bool): Client {
    if fillOmitted && e.id in t then e.client.(config := t[e.id].config) else e.client
  }

  function FilledEntries(t: Table, entries: seq<Entry>): seq<Entry> {
    seq(|entries|, k requires 0 <= k < |entries| => Entry(entries[k].id, Filled(t, entries[k], true)))
  }

  // ---------------------------------------------------------------- the operation

  /** What the request makes of the rows. */
  function Saved(r: Rows, request: ClientRequest): Rows {
    match request
    case NewClient(e) => Put(r, e)
    case EditClient(e) => Put(r, e)
    case AddBulk(entries) => PutAll(r, entries)
    case EditBulk(entries) => PutAll(r, FilledEntries(r.table, entries))
    case DeleteBulk(ids) => r.(table := r.table - Members(ids))
    case DeleteClient(id) => r.(table := r.table - {id})
  }

  function ChangesReport(t: Table, entries: seq<Entry>): set<nat> {
    if entries == [] then {}
    else
      var last := entries[|entries| - 1];
      ChangesReport(t, entries[..|entries| - 1]) + if last.id in t then EditReport(t[last.id], Filled(t, last, true)) else {}
  }

  function InboundsReport(t: Table, ids: seq<nat>): set<nat> {
    if ids == [] then {}
    else
      var last := ids[|ids| - 1];
      InboundsReport(t, ids[..|ids| - 1]) + if last in t then Members(t[last].inbounds) else {}
  }

  /** The inbounds the request reports. */
  function Report(t: Table, request: ClientRequest): set<nat> {
    match request
    case NewClient(e) => Members(e.client.inbounds)
    case EditClient(e) => if e.id in t then EditReport(t[e.id], e.client) else {}
    case AddBulk(entries) => if entries == [] then {} else Members(entries[0].client.inbounds)
    case EditBulk(entries) => ChangesReport(t, entries)
    case DeleteBulk(ids) => InboundsReport(t, ids)
    case DeleteClient(id) => InboundsReport(t, [id])
  }

  /** An inbound that is not among `ids` has the same clients as before. */
  ghost predicate Unaffected(t: Table, u: Table, ids: set<nat>) {
    forall i, id :: i !in ids ==> View(t, id, i) == View(u, id, i)
  }

  /** Requests that always report every inbound they affect: the others look only at the new rows, a bulk
      addition only at the first one. */
  predicate Reporting(request: ClientRequest) {
    !request.NewClient? && !request.AddBulk?
  }

  /** What a request needs to be carried out: rows to edit or delete that exist, and a list that is not empty. */
  predicate Possible(r: Rows, request: ClientRequest) {
    match request
    case NewClient(e) => true
    case EditClient(e) => e.id in r.table
    case AddBulk(entries) => entries != []
    case EditBulk(entries) => entries != [] && forall k :: 0 <= k < |entries| ==> entries[k].id in r.table
    case DeleteBulk(ids) => forall id :: id in ids ==> id in r.table
    case DeleteClient(id) => id in r.table
  }

  /** No later entry asks for the same identifier. */
  predicate ListedLast(entries: seq<Entry>, k: nat)
    requires k < |entries|
  {
    forall l :: k < l < |entries| ==> entries[l].id != entries[k].id
  }

  /** The rows after the request, entry by entry: what was submitted stands under its identifier, in a bulk edit with
      the stored settings, and every other row is as it was. */
  ghost predicate RowsWritten(r: Rows, request: ClientRequest, u: Table) {
    match request
    case NewClient(e) => u == r.table[if e.id == 0 then r.next else e.id := e.client]
    case EditClient(e) => u == r.table[e.id := e.client]
    case AddBulk(entries) =>
      && (forall id :: id in r.table && id < r.next && (forall k :: 0 <= k < |entries| ==> entries[k].id != id) ==>
          id in u && u[id] == r.table[id])
      && (forall k :: 0 <= k < |entries| && ListedLast(entries, k) && entries[k].id in r.table ==>
          entries[k].id in u && u[entries[k].id] == entries[k].client)
      && ((forall k :: 0 <= k < |entries| ==> entries[k].id == 0) ==>
          && (forall id :: id in u <==> id in r.table || r.next <= id < r.next + |entries|)
          && forall k :: 0 <= k < |entries| ==> r.next + k in u && u[r.next + k] == entries[k].client)
    case EditBulk(entries) =>
      && u.Keys == r.table.Keys
      && (forall id :: id in u && (forall k :: 0 <= k < |entries| ==> entries[k].id != id) ==> u[id] == r.table[id])
      && (forall k :: 0 <= k < |entries| && ListedLast(entries, k) ==>
          entries[k].id in u && u[entries[k].id] == entries[k].client.(config := r.table[entries[k].id].config))
    case DeleteBulk(ids) =>
      && (forall id :: id in u <==> id in r.table && id !in ids)
      && (forall id :: id in u ==> u[id] == r.table[id])
    case DeleteClient(id) => u == map i | i in r.table && i != id :: r.table[i]
  }

  /** `ClientService.Save`; None stands for an error. */
  method Save(r: Rows, request: ClientRequest, reliable: bool) returns (saved: Option<(Rows, seq<nat>)>)
    requires IdsBelowNext(r)
    ensures saved.Some? ==> Possible(r, request)
    ensures reliable ==> (saved.Some? <==> Possible(r, request))
    ensures saved.Some? ==> saved.value.0 == Saved(r, request) && IdsBelowNext(saved.value.0)
    ensures saved.Some? ==> Members(saved.value.1) == Report(r.table, request)
    ensures saved.Some? ==> RowsWritten(r, request, saved.value.0.table)
  {
    hide EditReport, RowsWritten;
    var fails: bool := *;
    if fails && !reliable {
      return None;
    }
    var inboundIds: seq<nat> := [];
    var after := r;
    match request {
      case NewClient(e) =>
        inboundIds := e.client.inbounds;
        after := Put(r, e);
      case EditClient(e) =>
        var changes := FindInboundsChanges(r.table, e, false, reliable);
        if changes.None? {
          return None;
        }
        inboundIds := changes.value.1;
        after := Put(r, e);
      case AddBulk(entries) =>
        if entries == [] {
          return None;
        }
        inboundIds := entries[0].client.inbounds;
        after := PutAll(r, entries);
      case EditBulk(entries) =>
        if entries == [] {
          return None;
        }
        var ok: bool;
        ok, inboundIds := ChangesOfAll(r.table, entries, reliable);
        if !ok {
          return None;
        }
        after := PutAll(r, FilledEntries(r.table, entries));
      case DeleteBulk(ids) =>
        var ok: bool;
        ok, inboundIds := InboundsOfAll(r.table, ids);
        if !ok {
          return None;
        }
        after := r.(table := r.table - Members(ids));
      case DeleteClient(id) =>
        if id !in r.table {
          return None;
        }
        inboundIds := r.table[id].inbounds;
        after := r.(table := r.table - {id});
        assert InboundsReport(r.table, [id]) == Members(r.table[id].inbounds) by {
          assert [id][..0] == [];
        }
    }
    PutKeepsIds(r, request);
    SavedRows(r, request);
    saved := Some((after, inboundIds));
  }

  /** The loop of "editbulk": every client is compared with its stored row before any is written. */
  method ChangesOfAll(t: Table, entries: seq<Entry>, reliable: bool) returns (ok: bool, inboundIds: seq<nat>)
    ensures reliable && (forall k :: 0 <= k < |entries| ==> entries[k].id in t) ==> ok
    ensures ok ==> Members(inboundIds) == ChangesReport(t, entries)
    ensures ok ==> forall k :: 0 <= k < |entries| ==> entries[k].id in t
  {
    inboundIds := [];
    for n := 0 to |entries|
      invariant forall k :: 0 <= k < n ==> entries[k].id in t
      invariant Members(inboundIds) == ChangesReport(t, entries[..n])
    {
      hide EditReport, Filled;
      assert entries[..n + 1][..n] == entries[..n];
      var changes := FindInboundsChanges(t, entries[n], true, reliable);
      if changes.None? {
        return false, [];
      }
      if changes.value.1 != [] {
        inboundIds := UnionUintArray(inboundIds, changes.value.1);
      }
    }
    assert entries[..|entries|] == entries;
    ok := true;
  }

  /** The loop of "delbulk". */
  method InboundsOfAll(t: Table, ids: seq<nat>) returns (ok: bool, inboundIds: seq<nat>)
    ensures ok <==> forall id :: id in ids ==> id in t
    ensures ok ==> Members(inboundIds) == InboundsReport(t, ids)
  {
    inboundIds := [];
    for n := 0 to |ids|
      invariant forall k :: 0 <= k < n ==> ids[k] in t
      invariant Members(inboundIds) == InboundsReport(t, ids[..n])
    {
      assert ids[..n + 1][..n] == ids[..n];
      if ids[n] !in t {
        return false, [];
      }
      inboundIds := UnionUintArray(inboundIds, t[ids[n]].inbounds);
    }
    assert ids[..|ids|] == ids;
    ok := true;
  }

  // ---------------------------------------------------------------- the rows

  lemma SavedRows(r: Rows, request: ClientRequest)
    requires IdsBelowNext(r) && Possible(r, request)
    ensures RowsWritten(r, request, Saved(r, request).table)
  {
    hide PutAll;
    match request
    case AddBulk(entries) => AddedRows(r, entries);
    case EditBulk(entries) => EditedRows(r, entries);
    case _ =>
  }

  lemma AddedRows(r: Rows, entries: seq<Entry>)
    requires IdsBelowNext(r)
    ensures RowsWritten(r, AddBulk(entries), PutAll(r, entries).table)
  {
    hide PutAll, IdsBelowNext;
    forall id | id in r.table && forall k :: 0 <= k < |entries| ==> entries[k].id != id {
      Unlisted(r, entries, id);
    }
    forall k | 0 <= k < |entries| && ListedLast(entries, k) && entries[k].id in r.table {
      LastWins(r, entries, k);
    }
    if forall k :: 0 <= k < |entries| ==> entries[k].id == 0 {
      AllNewRows(r, entries);
    }
  }

  lemma AllNewRows(r: Rows, entries: seq<Entry>)
    requires IdsBelowNext(r) && forall k :: 0 <= k < |entries| ==> entries[k].id == 0
    ensures var u := PutAll(r, entries).table;
      && (forall id :: id in u <==> id in r.table || r.next <= id < r.next + |entries|)
      && forall k :: 0 <= k < |entries| ==> r.next + k in u && u[r.next + k] == entries[k].client
  {
    hide PutAll;
    NewRows(r, entries);
    forall k | 0 <= k < |entries| {
      NewRow(r, entries, k);
    }
  }

  lemma EditedRows(r: Rows, entries: seq<Entry>)
    requires IdsBelowNext(r) && forall k :: 0 <= k < |entries| ==> entries[k].id in r.table
    ensures RowsWritten(r, EditBulk(entries), PutAll(r, FilledEntries(r.table, entries)).table)
  {
    hide PutAll, IdsBelowNext;
    var filled := FilledEntries(r.table, entries);
    EditedKeys(r, filled);
    forall id | id in r.table && forall k :: 0 <= k < |entries| ==> entries[k].id != id {
      Unlisted(r, filled, id);
    }
    forall k | 0 <= k < |entries| && ListedLast(entries, k)
      ensures filled[k].client == entries[k].client.(config := r.table[entries[k].id].config)
      ensures PutAll(r, filled).table[entries[k].id] == filled[k].client
    {
      LastWins(r, filled, k);
    }
  }

  /** Bulk additions of new clients fill the identifiers from the next one on. */
  lemma {:induction false} NewRows(r: Rows, entries: seq<Entry>)
    requires IdsBelowNext(r) && forall k :: 0 <= k < |entries| ==> entries[k].id == 0
    ensures var u := PutAll(r, entries);
      && IdsBelowNext(u) && u.next == r.next + |entries|
      && (forall id :: id in u.table <==> id in r.table || r.next <= id < u.next)
    decreases |entries|
  {
    if entries != [] {
      NewRows(r, entries[..|entries| - 1]);
    }
  }

  lemma {:induction false} NewRow(r: Rows, entries: seq<Entry>, k: nat)
    requires IdsBelowNext(r) && k < |entries| && forall l :: 0 <= l < |entries| ==> entries[l].id == 0
    ensures r.next + k in PutAll(r, entries).table && PutAll(r, entries).table[r.next + k] == entries[k].client
    decreases |entries|
  {
    var before := entries[..|entries| - 1];
    NewRows(r, before);
    if k < |before| {
      NewRow(r, before, k);
    }
  }

  /** A row nobody asks for stays as it is. */
  lemma {:induction false} Unlisted(r: Rows, entries: seq<Entry>, id: nat)
    requires IdsBelowNext(r) && id in r.table && forall k :: 0 <= k < |entries| ==> entries[k].id != id
    ensures id in PutAll(r, entries).table && PutAll(r, entries).table[id] == r.table[id] && id < PutAll(r, entries).next
    decreases |entries|
  {
    if entries != [] {
      Unlisted(r, entries[..|entries| - 1], id);
    }
  }

  lemma {:induction false} EditedKeys(r: Rows, entries: seq<Entry>)
    requires IdsBelowNext(r) && forall k :: 0 <= k < |entries| ==> entries[k].id in r.table
    ensures PutAll(r, entries).table.Keys == r.table.Keys && PutAll(r, entries).next == r.next
    decreases |entries|
  {
    if entries != [] {
      EditedKeys(r, entries[..|entries| - 1]);
    }
  }

  lemma {:induction false} NextGrows(r: Rows, entries: seq<Entry>)
    ensures PutAll(r, entries).next >= r.next
    decreases |entries|
  {
    if entries != [] {
      NextGrows(r, entries[..|entries| - 1]);
    }
  }

  /** The last entry for an identifier is the row. */
  lemma {:induction false} LastWins(r: Rows, entries: seq<Entry>, k: nat)
    requires IdsBelowNext(r) && k < |entries| && ListedLast(entries, k) && entries[k].id in r.table
    ensures var u := PutAll(r, entries).table; entries[k].id in u && u[entries[k].id] == entries[k].client
    decreases |entries|
  {
    var before := entries[..|entries| - 1];
    NextGrows(r, before);
    if k < |before| {
      LastWins(r, before, k);
    }
  }

  // ---------------------------------------------------------------- the reports are complete

  /** The report of a request other than an addition covers all rows it writes or deletes, also when a client is
      listed twice. */
  lemma ReportComplete(r: Rows, request: ClientRequest)
    requires IdsBelowNext(r) && Reporting(request) && Possible(r, request)
    ensures Unaffected(r.table, Saved(r, request).table, Report(r.table, request))
  {
    hide EditReport, View, ViewOf, Filled;
    match request
    case EditClient(e) =>
      EditReportCovers(r.table[e.id], e.client);
      EditReports(r, [e], Report(r.table, request));
      OnePut(r, e);
    case EditBulk(entries) =>
      forall k, i | 0 <= k < |entries| && i !in Report(r.table, request)
        ensures ViewOf(r.table[entries[k].id], i) == ViewOf(FilledEntries(r.table, entries)[k].client, i)
      {
        ChangesReported(r.table, entries, k);
        EditReportCovers(r.table[entries[k].id], Filled(r.table, entries[k], true));
      }
      EditReports(r, FilledEntries(r.table, entries), Report(r.table, request));
    case DeleteBulk(ids) =>
      DeletionReports(r.table, ids);
    case DeleteClient(id) =>
      DeletionReports(r.table, [id]);
      assert Members([id]) == {id};
  }

  lemma EditReportCovers(before: Client, after: Client)
    ensures forall i :: i !in EditReport(before, after) ==> ViewOf(before, i) == ViewOf(after, i)
  {
  }

  lemma OnePut(r: Rows, e: Entry)
    ensures PutAll(r, [e]) == Put(r, e)
  {
    assert [e][..0] == [];
  }

  lemma {:induction false} ChangesReported(t: Table, entries: seq<Entry>, k: nat)
    requires k < |entries| && entries[k].id in t
    ensures EditReport(t[entries[k].id], Filled(t, entries[k], true)) <= ChangesReport(t, entries)
  {
    hide EditReport, Filled;
    if k < |entries| - 1 {
      ChangesReported(t, entries[..|entries| - 1], k);
    }
  }

  lemma {:induction false} InboundsReported(t: Table, ids: seq<nat>, k: nat)
    requires k < |ids| && ids[k] in t
    ensures Members(t[ids[k]].inbounds) <= InboundsReport(t, ids)
  {
    hide Members;
    if k < |ids| - 1 {
      InboundsReported(t, ids[..|ids| - 1], k);
    }
  }

  lemma {:induction false} EditReports(r: Rows, entries: seq<Entry>, ids: set<nat>)
    requires IdsBelowNext(r)
    requires forall k :: 0 <= k < |entries| ==> entries[k].id in r.table
    requires forall k, i :: 0 <= k < |entries| && i !in ids ==> ViewOf(r.table[entries[k].id], i) == ViewOf(entries[k].client, i)
    ensures Unaffected(r.table, PutAll(r, entries).table, ids)
    ensures PutAll(r, entries).next == r.next && PutAll(r, entries).table.Keys == r.table.Keys
    decreases |entries|
  {
    if entries != [] {
      var n := |entries| - 1;
      EditReports(r, entries[..n], ids);
    }
  }

  lemma DeletionReports(t: Table, ids: seq<nat>)
    requires forall id :: id in ids ==> id in t
    ensures Unaffected(t, t - Members(ids), InboundsReport(t, ids))
  {
    forall id, i | id in ids && i !in InboundsReport(t, ids)
      ensures i !in t[id].inbounds
    {
      var k :| 0 <= k < |ids| && ids[k] == id;
      InboundsReported(t, ids, k);
    }
  }

  lemma {:induction false} PutAllKeepsIds(r: Rows, entries: seq<Entry>)
    requires IdsBelowNext(r)
    ensures IdsBelowNext(PutAll(r, entries))
    decreases |entries|
  {
    if entries != [] {
      PutAllKeepsIds(r, entries[..|entries| - 1]);
    }
  }

  lemma PutKeepsIds(r: Rows, request: ClientRequest)
    requires IdsBelowNext(r)
    ensures IdsBelowNext(Saved(r, request))
  {
    match request
    case NewClient(e) =>
    case EditClient(e) =>
    case AddBulk(entries) => PutAllKeepsIds(r, entries);
    case EditBulk(entries) => PutAllKeepsIds(r, FilledEntries(r.table, entries));
    case DeleteBulk(ids) =>
    case DeleteClient(id) =>
  }
}
