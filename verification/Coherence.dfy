/**
 When changing the running core step by step agrees with rendering the database afresh.
 */
module Coherence {
  import opened ClientSaves
  import opened Clients
  import opened InboundSaves
  import opened Rendering
  import opened UintArrays
  import opened Wrappers

  /** Inbounds that are not restarted show the same users before and after. */
  ghost predicate Covered(t: Table, u: Table, inbounds: InboundTable, ids: set<nat>) {
    forall i :: i in inbounds && i !in ids ==> SameUsers(t, u, i, inbounds[i])
  }

  /** Restarting some inbounds gives the full rendering of the new clients exactly when the others are not
      affected. */
  lemma RestartExact(before: Listeners, after: Listeners, t: Table, u: Table, inbounds: InboundTable, ids: set<nat>)
    requires InboundTagsUnique(inbounds) && Shows(before, t, inbounds) && Restarted(before, after, u, inbounds, ids)
    ensures Shows(after, u, inbounds) <==> Covered(t, u, inbounds, ids)
  {
    hide Rendered, SameUsers;
    forall i | i in inbounds
      ensures after[inbounds[i].tag] == Rendered(u, i, inbounds[i]) <==>
        i in ids || SameUsers(t, u, i, inbounds[i])
      ensures inbounds[i].tag in after
    {
      RestartedOne(before, after, t, u, inbounds, ids, i);
    }
    forall tag | tag in after
      ensures exists i :: i in inbounds && inbounds[i].tag == tag
    {
      if forall i :: i in inbounds && i in ids ==> inbounds[i].tag != tag {
        assert tag in before;
      }
    }
  }

  lemma RestartedOne(before: Listeners, after: Listeners, t: Table, u: Table, inbounds: InboundTable, ids: set<nat>, i: nat)
    requires InboundTagsUnique(inbounds) && Shows(before, t, inbounds) && Restarted(before, after, u, inbounds, ids) && i in inbounds
    ensures inbounds[i].tag in after
    ensures after[inbounds[i].tag] == Rendered(u, i, inbounds[i]) <==>
      i in ids || SameUsers(t, u, i, inbounds[i])
  {
    hide Rendered, SameUsers;
    RenderedTellsUsers(t, u, i, inbounds[i]);
    if i !in ids {
      assert forall j :: j in inbounds && j in ids ==> inbounds[j].tag != inbounds[i].tag;
      assert after[inbounds[i].tag] == before[inbounds[i].tag];
    }
  }

  // ---------------------------------------------------------------- clients

  lemma UnaffectedCovered(t: Table, u: Table, inbounds: InboundTable, ids: set<nat>)
    requires Unaffected(t, u, ids)
    ensures Covered(t, u, inbounds, ids)
  {
    hide Bears, Shown;
    forall i, c | i in inbounds && i !in ids
      ensures Seen(t, c, i, inbounds[i]) == Seen(u, c, i, inbounds[i])
    {
      assert View(t, c, i) == View(u, c, i);
    }
  }

  /** A new client under the identifier of an existing one leaves that one's inbounds behind. */
  predicate NewReportsAll(r: Rows, e: Entry, inbounds: InboundTable) {
    e.id in r.table ==> forall i :: i in inbounds && Bears(inbounds[i]) && i !in e.client.inbounds ==> ViewOf(r.table[e.id], i).None?
  }

  lemma NewClientExact(r: Rows, e: Entry, inbounds: InboundTable)
    requires ClientSaves.IdsBelowNext(r)
    ensures Covered(r.table, Put(r, e).table, inbounds, Members(e.client.inbounds)) <==> NewReportsAll(r, e, inbounds)
  {
    hide Bears, Shown;
    var u := Put(r, e).table;
    var key := ClientSaves.KeyFor(r, e.id);
    assert forall i, c :: i in inbounds && c != key ==> Seen(r.table, c, i, inbounds[i]) == Seen(u, c, i, inbounds[i]);
    assert forall i :: i in inbounds && i !in e.client.inbounds ==> Seen(u, key, i, inbounds[i]) == None;
    if Covered(r.table, u, inbounds, Members(e.client.inbounds)) && e.id in r.table {
      forall i | i in inbounds && Bears(inbounds[i]) && i !in e.client.inbounds
        ensures ViewOf(r.table[e.id], i).None?
      {
        assert SameUsers(r.table, u, i, inbounds[i]);
        assert Seen(r.table, key, i, inbounds[i]) == Seen(u, key, i, inbounds[i]);
      }
    }
  }

  /** A "new" client under the identifier of one that is enabled in another inbound: that inbound runs on with the
      old client. */
  lemma OverwrittenClientStays(c: Client, vless: Inbound)
    requires c.enable && c.inbounds == [1] && Bears(vless)
    ensures var e := Entry(1, c.(inbounds := [2]));
      !Covered(map[1 := c], Put(Rows(map[1 := c], 2), e).table, map[1 := vless, 2 := vless], Members(e.client.inbounds))
  {
    hide Bears, Covered, Put;
    var r, e := Rows(map[1 := c], 2), Entry(1, c.(inbounds := [2]));
    var inbounds := map[1 := vless, 2 := vless];
    NewClientExact(r, e, inbounds);
    assert 1 in inbounds && Bears(inbounds[1]) && 1 !in e.client.inbounds && ViewOf(r.table[1], 1).Some?;
  }

  /** The identifier under which entry `k` is written. */
  function KeyAt(r: Rows, entries: seq<Entry>, k: nat): nat
    requires k < |entries|
  {
    ClientSaves.KeyFor(PutAll(r, entries[..k]), entries[k].id)
  }

  /** No later entry overwrites entry `k`. */
  predicate Lasts(r: Rows, entries: seq<Entry>, k: nat)
    requires k < |entries|
  {
    forall l :: k < l < |entries| ==> KeyAt(r, entries, l) != KeyAt(r, entries, k)
  }

  /** A bulk addition reports the inbounds of its first client only: in every other inbound its entries must show
      what the rows they replace showed. */
  predicate BulkReportsAll(r: Rows, entries: seq<Entry>, inbounds: InboundTable)
    requires entries != []
  {
    forall k, i ::
      0 <= k < |entries| && Lasts(r, entries, k) && i in inbounds && i !in entries[0].client.inbounds
      ==> SeenOf(entries[k].client, i, inbounds[i]) == Seen(r.table, KeyAt(r, entries, k), i, inbounds[i])
  }

  /** What a bulk save leaves under an identifier. */
  lemma {:induction false} BulkRow(r: Rows, entries: seq<Entry>, id: nat) returns (k: int)
    ensures k == -1 || (0 <= k < |entries| && Lasts(r, entries, k) && KeyAt(r, entries, k) == id)
    ensures var u := PutAll(r, entries).table;
      if k == -1 then (id in u <==> id in r.table) && (id in u ==> u[id] == r.table[id])
      else id in u && u[id] == entries[k].client
    ensures k == -1 ==> forall l :: 0 <= l < |entries| ==> KeyAt(r, entries, l) != id
    decreases |entries|
  {
    if entries == [] {
      return -1;
    }
    var n := |entries| - 1;
    var before := entries[..n];
    forall l | 0 <= l < n
      ensures KeyAt(r, before, l) == KeyAt(r, entries, l)
    {
      assert before[..l] == entries[..l];
    }
    if KeyAt(r, entries, n) == id {
      k := n;
    } else {
      k := BulkRow(r, before, id);
    }
  }

  /** The report of a bulk addition is complete exactly under this condition. */
  lemma AddBulkExact(r: Rows, entries: seq<Entry>, inbounds: InboundTable)
    requires entries != []
    ensures Covered(r.table, PutAll(r, entries).table, inbounds, Members(entries[0].client.inbounds)) <==>
      BulkReportsAll(r, entries, inbounds)
  {
    hide SeenOf, PutAll, KeyAt, Lasts;
    var u := PutAll(r, entries).table;
    var first := entries[0].client.inbounds;
    if Covered(r.table, u, inbounds, Members(first)) {
      forall k, i | 0 <= k < |entries| && Lasts(r, entries, k) && i in inbounds && i !in first
        ensures SeenOf(entries[k].client, i, inbounds[i]) == Seen(r.table, KeyAt(r, entries, k), i, inbounds[i])
      {
        var id := KeyAt(r, entries, k);
        var l := BulkRow(r, entries, id);
        OneLasts(r, entries, k, l);
        assert SameUsers(r.table, u, i, inbounds[i]);
        assert Seen(r.table, id, i, inbounds[i]) == Seen(u, id, i, inbounds[i]);
      }
    }
    if BulkReportsAll(r, entries, inbounds) {
      forall i: nat, id: nat | i in inbounds && i !in first
        ensures Seen(r.table, id, i, inbounds[i]) == Seen(u, id, i, inbounds[i])
      {
        var k := BulkRow(r, entries, id);
      }
    }
  }

  lemma OneLasts(r: Rows, entries: seq<Entry>, k: nat, l: int)
    requires k < |entries| && Lasts(r, entries, k)
    requires l != -1 ==> 0 <= l < |entries| && Lasts(r, entries, l) && KeyAt(r, entries, l) == KeyAt(r, entries, k)
    ensures l != -1 ==> l == k
  {
    hide KeyAt;
  }

  /** Every inbound that gets a user from one of the clients belongs to the first one as well. */
  predicate BulkSharesInbounds(entries: seq<Entry>, inbounds: InboundTable) {
    forall k, i ::
      0 <= k < |entries| && entries[k].client.enable && i in entries[k].client.inbounds && i in inbounds && Bears(inbounds[i])
      ==> i in entries[0].client.inbounds
  }

  lemma NewKey(r: Rows, entries: seq<Entry>, k: nat)
    requires ClientSaves.IdsBelowNext(r) && k < |entries| && forall l :: 0 <= l < |entries| ==> entries[l].id == 0
    ensures KeyAt(r, entries, k) == r.next + k && r.next + k !in r.table
  {
    NewRows(r, entries[..k]);
  }

  /** For clients that all ask for a new identifier the condition is that they share the inbounds of the first. */
  lemma NewClientsShare(r: Rows, entries: seq<Entry>, inbounds: InboundTable)
    requires ClientSaves.IdsBelowNext(r) && entries != [] && forall k :: 0 <= k < |entries| ==> entries[k].id == 0
    ensures BulkReportsAll(r, entries, inbounds) <==> BulkSharesInbounds(entries, inbounds)
  {
    hide Bears, KeyAt, Shown;
    forall k | 0 <= k < |entries|
      ensures Lasts(r, entries, k) && KeyAt(r, entries, k) !in r.table
    {
      NewKey(r, entries, k);
      forall l | k < l < |entries|
        ensures KeyAt(r, entries, l) != KeyAt(r, entries, k)
      {
        NewKey(r, entries, l);
      }
    }
  }

  /** Two new clients, the second in an inbound the first one lacks: that inbound runs on without it. */
  lemma BulkCanFallBehind(c: Client, vless: Inbound)
    requires c.enable && c.inbounds == [1] && Bears(vless)
    ensures var entries := [Entry(0, c), Entry(0, c.(inbounds := [2]))];
      !Covered(map[], PutAll(Rows(map[], 1), entries).table, map[1 := vless, 2 := vless], Members(entries[0].client.inbounds))
  {
    hide Bears, Covered, PutAll, BulkReportsAll;
    var entries := [Entry(0, c), Entry(0, c.(inbounds := [2]))];
    var inbounds := map[1 := vless, 2 := vless];
    AddBulkExact(Rows(map[], 1), entries, inbounds);
    NewClientsShare(Rows(map[], 1), entries, inbounds);
    assert entries[1].client.enable && 2 in entries[1].client.inbounds && 2 in inbounds && Bears(inbounds[2]);
    assert 2 !in entries[0].client.inbounds;
  }

  /** A bulk addition that overwrites a client of another inbound with other settings: the report is complete exactly
      if that inbound shows the same part of both. */
  lemma BulkOverwriteSeen(c: Client, d: Client, changed: Settings, vless: Inbound)
    requires c.enable && c.inbounds == [2] && d.inbounds == [1] && Bears(vless)
    ensures var t: Table := map[1 := c];
      var entries := [Entry(0, d), Entry(1, c.(config := changed))];
      Covered(t, PutAll(Rows(t, 2), entries).table, map[1 := vless, 2 := vless], Members(d.inbounds)) <==>
      Shown(vless, changed) == Shown(vless, c.config)
  {
    hide Bears, Shown, Covered;
    var t: Table := map[1 := c];
    var r, entries := Rows(t, 2), [Entry(0, d), Entry(1, c.(config := changed))];
    var inbounds: InboundTable := map[1 := vless, 2 := vless];
    AddBulkExact(r, entries, inbounds);
    assert entries[..0] == [] && entries[..1] == [Entry(0, d)] && [Entry(0, d)][..0] == [];
    assert KeyAt(r, entries, 0) == 2 && KeyAt(r, entries, 1) == 1;
    assert Lasts(r, entries, 1);
    assert SeenOf(entries[1].client, 2, inbounds[2]) == Some(Shown(vless, changed));
    assert Seen(t, 1, 2, inbounds[2]) == Some(Shown(vless, c.config));
    assert 2 !in entries[0].client.inbounds && 1 in entries[0].client.inbounds;
  }

  /** The job reports every inbound whose users change. */
  lemma JobCovered(t: Table, dt: int, inbounds: InboundTable)
    ensures Covered(t, TableAfterJob(t, dt), inbounds, JobReport(t, dt))
  {
    hide Bears, Shown, ReportedInbound, TableAfterJob;
    var u := TableAfterJob(t, dt);
    forall i, c | i in inbounds && i !in JobReport(t, dt)
      ensures Seen(t, c, i, inbounds[i]) == Seen(u, c, i, inbounds[i])
    {
      if EnabledUsers(u, i) != EnabledUsers(t, i) {
        ChangedInboundsReported(t, dt, i);
      } else if c in t {
        JobMeetsLimits(t, dt, c);
        assert c in EnabledUsers(t, i) <==> c in EnabledUsers(u, i);
      }
    }
  }

  // ---------------------------------------------------------------- inbounds

  /** A new inbound runs with the enabled clients given; the clients that refer to its identifier already must be
      among them, and an overwritten inbound must have had the same tag. */
  predicate NewInboundFits(r: InboundRows, id: nat, inbound: Inbound, initIds: seq<nat>) {
    var key := InboundSaves.KeyFor(r, id);
    && (key in r.inbounds ==> r.inbounds[key].tag == inbound.tag)
    && (Bears(inbound) ==> forall c :: c in r.clients && r.clients[c].enable && key in r.clients[c].inbounds ==> c in initIds)
  }

  lemma OthersKeepUsers(t: Table, ids: seq<nat>, key: nat, i: nat)
    requires i != key
    ensures Selected(WithInbound(t, ids, key), i) == Selected(t, i)
    ensures Selected(WithoutInbound(t, key), i) == Selected(t, i)
  {
  }

  lemma SameSelection(t: Table, u: Table, i: nat, inbound: Inbound)
    ensures Selected(t, i) == Selected(u, i) ==> Rendered(t, i, inbound) == Rendered(u, i, inbound)
  {
  }

  lemma InitialExact(t: Table, inbound: Inbound, ids: seq<nat>, key: nat)
    ensures Initial(t, inbound, ids) == Rendered(WithInbound(t, ids, key), key, inbound) <==>
      (Bears(inbound) ==> forall c :: c in t && t[c].enable && key in t[c].inbounds ==> c in ids)
  {
    hide Bears, Shown, FetchUsers;
    var m := map c | c in t && t[c].enable && c in ids :: t[c].config;
    var n := Selected(WithInbound(t, ids, key), key);
    BearsHasUser(inbound);
    FetchTellsUsers(inbound, m, n);
    assert forall c :: c in n <==> c in t && t[c].enable && (c in ids || key in t[c].inbounds);
    if forall c :: c in t && t[c].enable && key in t[c].inbounds ==> c in ids {
      assert m == n;
    } else {
      var c :| c in t && t[c].enable && key in t[c].inbounds && c !in ids;
      assert c in n && c !in m;
    }
  }

  /** One inbound is replaced or added while some tags are removed. */
  lemma ReplaceExact(running: Listeners, t: Table, u: Table, inbounds: InboundTable, key: nat,
                     inbound: Inbound, removed: set<string>, l: Listener)
    requires InboundTagsUnique(inbounds) && InboundTagsUnique(inbounds[key := inbound]) && Shows(running, t, inbounds)
    requires forall i :: i in inbounds && i != key ==>
      inbounds[i].tag !in removed && Rendered(u, i, inbounds[i]) == Rendered(t, i, inbounds[i])
    ensures Shows((running - removed)[inbound.tag := l], u, inbounds[key := inbound]) <==>
      l == Rendered(u, key, inbound) && (key in inbounds ==> inbounds[key].tag == inbound.tag || inbounds[key].tag in removed)
  {
    hide Rendered;
    var after, inbounds' := (running - removed)[inbound.tag := l], inbounds[key := inbound];
    forall i | i in inbounds' && i != key
      ensures inbounds'[i].tag in after && after[inbounds'[i].tag] == Rendered(u, i, inbounds'[i])
    {
      assert inbounds'[i].tag != inbounds'[key].tag;
    }
    assert inbounds'[key] == inbound;
    if key in inbounds && inbounds[key].tag != inbound.tag && inbounds[key].tag !in removed {
      LeftBehind(running, after, t, u, inbounds, key, inbound);
    } else {
      forall tag | tag in after
        ensures exists i :: i in inbounds' && inbounds'[i].tag == tag
      {
        if tag != inbound.tag {
          var i :| i in inbounds && inbounds[i].tag == tag;
          assert i != key;
          assert inbounds'[i].tag == tag;
        }
      }
    }
  }

  lemma LeftBehind(running: Listeners, after: Listeners, t: Table, u: Table, inbounds: InboundTable, key: nat, inbound: Inbound)
    requires InboundTagsUnique(inbounds) && Shows(running, t, inbounds)
    requires key in inbounds && inbounds[key].tag != inbound.tag && inbounds[key].tag in after
    ensures !Shows(after, u, inbounds[key := inbound])
  {
    hide Rendered;
    var inbounds' := inbounds[key := inbound];
    assert forall i :: i in inbounds' ==> inbounds'[i].tag != inbounds[key].tag;
  }

  lemma NewInboundExact(running: Listeners, r: InboundRows, id: nat, inbound: Inbound, initIds: seq<nat>)
    requires InboundSaves.Sound(r) && Shows(running, r.clients, r.inbounds)
    requires InboundTagsUnique(InboundSaves.Saved(r, NewInbound(id, inbound, initIds)).inbounds)
    ensures var request := NewInbound(id, inbound, initIds);
      var u := InboundSaves.Saved(r, request);
      Shows(Patched(running, r, request), u.clients, u.inbounds) <==> NewInboundFits(r, id, inbound, initIds)
  {
    hide Bears, Selected, Rendered, Initial, Shows;
    var u := InboundSaves.Saved(r, NewInbound(id, inbound, initIds));
    var key := InboundSaves.KeyFor(r, id);
    InitialExact(r.clients, inbound, initIds, key);
    forall i | i in r.inbounds && i != key
      ensures Rendered(u.clients, i, r.inbounds[i]) == Rendered(r.clients, i, r.inbounds[i])
    {
      OthersKeepUsers(r.clients, initIds, key, i);
      SameSelection(r.clients, u.clients, i, r.inbounds[i]);
    }
    assert running - {} == running;
    ReplaceExact(running, r.clients, u.clients, r.inbounds, key, inbound, {}, Initial(r.clients, inbound, initIds));
  }

  /** A "new" inbound under the identifier of one with another tag: the old one runs on beside it. */
  lemma OverwrittenInboundRunsOn(inbound: Inbound)
    requires inbound.tag == "old"
    ensures var r := InboundRows(map[], map[1 := inbound], 2);
      var request := NewInbound(1, inbound.(tag := "new"), []);
      var running := map["old" := Rendered(map[], 1, inbound)];
      var u := InboundSaves.Saved(r, request);
      && InboundSaves.Sound(r) && Shows(running, r.clients, r.inbounds) && InboundTagsUnique(u.inbounds)
      && !Shows(Patched(running, r, request), u.clients, u.inbounds)
  {
    hide Rendered;
    var r := InboundRows(map[], map[1 := inbound], 2);
    var running := map["old" := Rendered(map[], 1, inbound)];
    assert r.inbounds[1].tag == "old";
    NewInboundExact(running, r, 1, inbound.(tag := "new"), []);
  }

  lemma NobodyUses(t: Table, inbounds: InboundTable, i: nat)
    requires Referring(t, inbounds) && i !in inbounds
    ensures Selected(t, i) == map[]
  {
  }

  /** Editing an inbound keeps the rendering; an identifier unknown to the table is inserted. */
  lemma EditInboundShows(running: Listeners, r: InboundRows, id: nat, inbound: Inbound)
    requires InboundSaves.Sound(r) && TagsGiven(r.inbounds)
    requires Referring(r.clients, r.inbounds) && Shows(running, r.clients, r.inbounds)
    requires InboundTagsUnique(InboundSaves.Saved(r, EditInbound(id, inbound)).inbounds)
    ensures var u := InboundSaves.Saved(r, EditInbound(id, inbound));
      Shows(Patched(running, r, EditInbound(id, inbound)), u.clients, u.inbounds)
  {
    hide Rendered, Selected, Shows, Referring;
    var key := InboundSaves.KeyFor(r, id);
    if id !in r.inbounds {
      NobodyUses(r.clients, r.inbounds, id);
      NobodyUses(r.clients, r.inbounds, key);
    }
    RenderedSame(r.clients, id, key, inbound);
    ReplaceExact(running, r.clients, r.clients, r.inbounds, key, inbound, {OldTag(r, id)}, Rendered(r.clients, id, inbound));
  }

  lemma RenderedSame(t: Table, i: nat, j: nat, inbound: Inbound)
    ensures Selected(t, i) == Selected(t, j) ==> Rendered(t, i, inbound) == Rendered(t, j, inbound)
  {
  }

  lemma ShowsWithout(running: Listeners, t: Table, u: Table, inbounds: InboundTable, kept: InboundTable, tag: string)
    requires Shows(running, t, inbounds)
    requires forall i :: i in kept <==> i in inbounds && inbounds[i].tag != tag
    requires forall i :: i in kept ==> kept[i] == inbounds[i] && Rendered(u, i, kept[i]) == Rendered(t, i, inbounds[i])
    ensures Shows(running - {tag}, u, kept)
  {
    hide Rendered;
    forall other | other in running - {tag}
      ensures exists i :: i in kept && kept[i].tag == other
    {
      var i :| i in inbounds && inbounds[i].tag == other;
      assert i in kept;
    }
  }

  lemma DeleteInboundShows(running: Listeners, r: InboundRows, tag: string)
    requires InboundSaves.Sound(r) && Shows(running, r.clients, r.inbounds)
    ensures var u := InboundSaves.Saved(r, DeleteInbound(tag));
      Shows(Patched(running, r, DeleteInbound(tag)), u.clients, u.inbounds)
  {
    hide Rendered, Selected, WithoutInbound, Shows, IdOf;
    var u := InboundSaves.Saved(r, DeleteInbound(tag));
    var gone := IdOf(r.inbounds, tag);
    forall i | i in u.inbounds
      ensures Rendered(u.clients, i, u.inbounds[i]) == Rendered(r.clients, i, r.inbounds[i])
    {
      OthersKeepUsers(r.clients, [], gone, i);
      SameSelection(r.clients, u.clients, i, r.inbounds[i]);
    }
    ShowsWithout(running, r.clients, u.clients, r.inbounds, u.inbounds, tag);
  }

  predicate InboundFits(r: InboundRows, request: InboundRequest) {
    request.NewInbound? ==> NewInboundFits(r, request.id, request.inbound, request.initIds)
  }

  /** Patching the running inbounds gives the full rendering, except for a new inbound that does not fit. */
  lemma InboundsShown(running: Listeners, r: InboundRows, request: InboundRequest)
    requires InboundSaves.Sound(r) && TagsGiven(r.inbounds) && Referring(r.clients, r.inbounds)
    requires Shows(running, r.clients, r.inbounds) && InboundTagsUnique(InboundSaves.Saved(r, request).inbounds)
    ensures var u := InboundSaves.Saved(r, request);
      Shows(Patched(running, r, request), u.clients, u.inbounds) <==> InboundFits(r, request)
  {
    hide InboundSaves.Saved, Patched, Shows, NewInboundFits;
    match request
    case NewInbound(id, inbound, initIds) => NewInboundExact(running, r, id, inbound, initIds);
    case EditInbound(id, inbound) => EditInboundShows(running, r, id, inbound);
    case DeleteInbound(tag) => DeleteInboundShows(running, r, tag);
  }

  // ---------------------------------------------------------------- references stay within the table

  lemma SavedKeepsReferences(r: InboundRows, request: InboundRequest)
    requires InboundSaves.Sound(r) && Referring(r.clients, r.inbounds)
    ensures Referring(InboundSaves.Saved(r, request).clients, InboundSaves.Saved(r, request).inbounds)
  {
  }

  lemma SavedKeepsTags(r: InboundRows, request: InboundRequest)
    requires TagsGiven(r.inbounds) && (!request.DeleteInbound? ==> request.inbound.tag != "")
    ensures TagsGiven(InboundSaves.Saved(r, request).inbounds)
  {
  }

  lemma {:induction false} PutAllKeepsReferences(r: Rows, entries: seq<Entry>, inbounds: InboundTable)
    requires Referring(r.table, inbounds)
    requires forall k, i :: 0 <= k < |entries| && i in entries[k].client.inbounds ==> i in inbounds
    ensures Referring(PutAll(r, entries).table, inbounds)
    decreases |entries|
  {
    if entries != [] {
      PutAllKeepsReferences(r, entries[..|entries| - 1], inbounds);
    }
  }
}
