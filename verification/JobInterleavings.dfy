/**
 The depletion job does not wait for a save that is under way (cronjob/depleteJob.go:18-30, service/config.go:264-279):
 it commits its rows before the save writes any, and restarts the inbounds it reports from the committed rows while
 the save has changed the core already. When that is harmless, and when the core falls behind.
 */
module JobInterleavings {
  import opened ClientSaves
  import opened Clients
  import opened Coherence
  import opened InboundSaves
  import opened Rendering
  import opened UintArrays
  import opened Wrappers

  // ---------------------------------------------------------------- the core after a restart

  /** No inbound among `ids` has this tag. */
  ghost predicate Apart(inbounds: InboundTable, ids: set<nat>, tag: string) {
    forall i :: i in inbounds && i in ids ==> inbounds[i].tag != tag
  }

  ghost function WithTag(inbounds: InboundTable, ids: set<nat>, tag: string): (i: nat)
    requires !Apart(inbounds, ids, tag)
    ensures i in inbounds && i in ids && inbounds[i].tag == tag
  {
    var i :| i in inbounds && i in ids && inbounds[i].tag == tag;
    i
  }

  /** The running inbounds with those among `ids` rendered anew. */
  ghost function Restart(running: Listeners, t: Table, inbounds: InboundTable, ids: set<nat>): Listeners {
    map tag | tag in running.Keys + (set i | i in inbounds && i in ids :: inbounds[i].tag) ::
      if Apart(inbounds, ids, tag) then running[tag]
      else var i := WithTag(inbounds, ids, tag); Rendered(t, i, inbounds[i])
  }

  lemma RestartRestarts(running: Listeners, t: Table, inbounds: InboundTable, ids: set<nat>)
    requires InboundTagsUnique(inbounds)
    ensures Restarted(running, Restart(running, t, inbounds, ids), t, inbounds, ids)
  {
    hide Rendered;
    var after := Restart(running, t, inbounds, ids);
    forall i | i in inbounds && i in ids
      ensures inbounds[i].tag in after && after[inbounds[i].tag] == Rendered(t, i, inbounds[i])
    {
      var tags := set i | i in inbounds && i in ids :: inbounds[i].tag;
      assert inbounds[i].tag in tags;
      assert WithTag(inbounds, ids, inbounds[i].tag) == i;
    }
  }

  /** A core that should run `ideal` but has some inbounds as they are for `d` agrees exactly if those are ideal. */
  lemma OverwrittenExact(ideal: Listeners, running: Listeners, u: Table, after: InboundTable, d: Table, inbounds: InboundTable, ids: set<nat>)
    requires Shows(ideal, u, after)
    requires forall i :: i in inbounds && i in ids ==>
      inbounds[i].tag in running && running[inbounds[i].tag] == Rendered(d, i, inbounds[i])
    requires forall tag :: Apart(inbounds, ids, tag) ==>
      (tag in running <==> tag in ideal) && (tag in running ==> running[tag] == ideal[tag])
    ensures Shows(running, u, after) <==>
      forall i :: i in inbounds && i in ids ==> inbounds[i].tag in ideal && ideal[inbounds[i].tag] == Rendered(d, i, inbounds[i])
  {
    hide Rendered, Shows;
    if Shows(running, u, after) {
      ShownOnce(ideal, running, u, after);
    }
    if forall i :: i in inbounds && i in ids ==> inbounds[i].tag in ideal && ideal[inbounds[i].tag] == Rendered(d, i, inbounds[i]) {
      forall tag
        ensures tag in running <==> tag in ideal
        ensures tag in running ==> running[tag] == ideal[tag]
      {
        if !Apart(inbounds, ids, tag) {
          var i :| i in inbounds && i in ids && inbounds[i].tag == tag;
        }
      }
      assert running == ideal;
    }
  }

  lemma ShownOnce(a: Listeners, b: Listeners, t: Table, inbounds: InboundTable)
    requires Shows(a, t, inbounds) && Shows(b, t, inbounds)
    ensures a == b
  {
    hide Rendered;
  }

  // ---------------------------------------------------------------- a save of clients

  /** A job commits `d`; a client save then stages `e` and restarts its inbounds; the job restarts its own from
      the committed rows; the save commits. The core agrees with `e` exactly if the save leaves alone the users of
      every inbound the job restarts. */
  lemma JobInsideSave(r0: Listeners, r1: Listeners, r2: Listeners, t: Table, d: Table, e: Table, inbounds: InboundTable,
                      jobIds: set<nat>, saveIds: set<nat>)
    requires InboundTagsUnique(inbounds) && Shows(r0, t, inbounds)
    requires Covered(t, d, inbounds, jobIds) && Covered(d, e, inbounds, saveIds)
    requires Restarted(r0, r1, e, inbounds, saveIds) && Restarted(r1, r2, d, inbounds, jobIds)
    ensures Shows(r2, e, inbounds) <==>
      forall i :: i in inbounds && i in jobIds ==> SameUsers(d, e, i, inbounds[i])
  {
    hide Rendered, SameUsers, Restart, Covered;
    var first := Restart(r0, d, inbounds, jobIds);
    var ideal := Restart(first, e, inbounds, saveIds);
    RestartRestarts(r0, d, inbounds, jobIds);
    RestartRestarts(first, e, inbounds, saveIds);
    JobBeforeSave(r0, first, ideal, t, d, e, inbounds, jobIds, saveIds);
    BothRestarted(r0, r1, r2, first, ideal, d, e, inbounds, jobIds, saveIds);
    OverwrittenExact(ideal, r2, e, inbounds, d, inbounds, jobIds);
    forall i | i in inbounds {
      RenderedTellsUsers(d, e, i, inbounds[i]);
    }
  }

  lemma BothRestarted(r0: Listeners, r1: Listeners, r2: Listeners, first: Listeners, ideal: Listeners, d: Table, e: Table,
                      inbounds: InboundTable, jobIds: set<nat>, saveIds: set<nat>)
    requires Restarted(r0, r1, e, inbounds, saveIds) && Restarted(r1, r2, d, inbounds, jobIds)
    requires Restarted(r0, first, d, inbounds, jobIds) && Restarted(first, ideal, e, inbounds, saveIds)
    ensures forall tag :: Apart(inbounds, jobIds, tag) ==>
      (tag in r2 <==> tag in ideal) && (tag in r2 ==> r2[tag] == ideal[tag])
  {
    hide Rendered;
    forall tag | Apart(inbounds, jobIds, tag)
      ensures tag in r2 <==> tag in ideal
      ensures tag in r2 ==> r2[tag] == ideal[tag]
    {
      if !Apart(inbounds, saveIds, tag) {
        var i :| i in inbounds && i in saveIds && inbounds[i].tag == tag;
      }
    }
  }

  /** A job that is over before the save restarts its inbounds is harmless. */
  lemma JobBeforeSave(r0: Listeners, r1: Listeners, r2: Listeners, t: Table, d: Table, e: Table, inbounds: InboundTable,
                      jobIds: set<nat>, saveIds: set<nat>)
    requires InboundTagsUnique(inbounds) && Shows(r0, t, inbounds)
    requires Covered(t, d, inbounds, jobIds) && Covered(d, e, inbounds, saveIds)
    requires Restarted(r0, r1, d, inbounds, jobIds) && Restarted(r1, r2, e, inbounds, saveIds)
    ensures Shows(r2, e, inbounds)
  {
    RestartExact(r0, r1, t, d, inbounds, jobIds);
    RestartExact(r1, r2, d, e, inbounds, saveIds);
  }

  function FreeClient(config: Settings): Client {
    Client(true, "a", config, [1], 0, 0, 0, 0, false, false, 0, 0, 0, 0)
  }

  /** A client that has used two bytes of one. */
  function SpentClient(config: Settings): Client {
    Client(true, "b", config, [1], 1, 0, 2, 0, false, false, 0, 0, 0, 0)
  }

  lemma JobOnSpent(a: Settings, b: Settings, dt: int)
    ensures var t: Table := map[1 := FreeClient(a), 2 := SpentClient(b)];
      && TableAfterJob(t, dt) == map[1 := FreeClient(a), 2 := SpentClient(b).(enable := false)]
      && JobReport(t, dt) == {1}
  {
    var t: Table := map[1 := FreeClient(a), 2 := SpentClient(b)];
    assert AfterJob(t[1], dt) == t[1] && AfterJob(t[2], dt) == t[2].(enable := false);
    assert !Reported(t[1], dt) && Reported(t[2], dt) && 1 in t[2].inbounds;
    assert ReportedInbound(t, dt, 1);
  }

  /** A save gives client 1 other settings; meanwhile the job disables client 2 of the same inbound, which goes back
      to the former settings of client 1. */
  lemma JobUndoesSave(a: Settings, b: Settings, changed: Settings, dt: int, vless: Inbound, r0: Listeners, r1: Listeners, r2: Listeners)
    requires Bears(vless) && Shown(vless, a) != Shown(vless, changed)
    requires var t: Table, inbounds: InboundTable := map[1 := FreeClient(a), 2 := SpentClient(b)], map[1 := vless];
      var d := TableAfterJob(t, dt);
      var request := EditClient(Entry(1, FreeClient(changed)));
      && Shows(r0, t, inbounds)
      && Restarted(r0, r1, ClientSaves.Saved(Rows(d, 3), request).table, inbounds, Report(d, request))
      && Restarted(r1, r2, d, inbounds, JobReport(t, dt))
    ensures var d := TableAfterJob(map[1 := FreeClient(a), 2 := SpentClient(b)], dt);
      !Shows(r2, ClientSaves.Saved(Rows(d, 3), EditClient(Entry(1, FreeClient(changed)))).table, map[1 := vless])
  {
    hide Bears, Shown, Shows, Restarted, TableAfterJob, JobReport;
    var t: Table, inbounds: InboundTable := map[1 := FreeClient(a), 2 := SpentClient(b)], map[1 := vless];
    var d := TableAfterJob(t, dt);
    var request := EditClient(Entry(1, FreeClient(changed)));
    var e := ClientSaves.Saved(Rows(d, 3), request).table;
    JobOnSpent(a, b, dt);
    JobCovered(t, dt, inbounds);
    ReportComplete(Rows(d, 3), request);
    UnaffectedCovered(d, e, inbounds, Report(d, request));
    JobInsideSave(r0, r1, r2, t, d, e, inbounds, JobReport(t, dt), Report(d, request));
    assert Seen(d, 1, 1, vless) == Some(Shown(vless, a)) && Seen(e, 1, 1, vless) == Some(Shown(vless, changed));
    assert !SameUsers(d, e, 1, inbounds[1]);
  }

  // ---------------------------------------------------------------- a save of an inbound

  /** Inbound `i` is still there and shows the same. */
  ghost predicate StaysAsItIs(r: InboundRows, u: InboundRows, i: nat) {
    i in r.inbounds && i in u.inbounds && Rendered(u.clients, i, u.inbounds[i]) == Rendered(r.clients, i, r.inbounds[i])
  }

  /** A job commits the clients of `r`; the save of an inbound patches the core; the job restarts its inbounds from
      the committed rows; the save commits. The core agrees with the rows of the save exactly if the save leaves
      alone every inbound the job restarts: a renamed or deleted one comes back. */
  lemma JobInsideInboundSave(r0: Listeners, r2: Listeners, t: Table, r: InboundRows, request: InboundRequest, jobIds: set<nat>)
    requires InboundSaves.Sound(r) && TagsGiven(r.inbounds) && Referring(r.clients, r.inbounds) && InboundFits(r, request)
    requires InboundTagsUnique(InboundSaves.Saved(r, request).inbounds)
    requires Shows(r0, t, r.inbounds) && Covered(t, r.clients, r.inbounds, jobIds)
    requires Restarted(Patched(r0, r, request), r2, r.clients, r.inbounds, jobIds)
    ensures var u := InboundSaves.Saved(r, request);
      Shows(r2, u.clients, u.inbounds) <==> forall i :: i in r.inbounds && i in jobIds ==> StaysAsItIs(r, u, i)
  {
    hide Rendered, Initial, Covered, Restart, InboundSaves.Saved, InboundFits, Referring, Shows;
    var u := InboundSaves.Saved(r, request);
    var first := Restart(r0, r.clients, r.inbounds, jobIds);
    var ideal := Patched(first, r, request);
    RestartRestarts(r0, r.clients, r.inbounds, jobIds);
    RestartExact(r0, first, t, r.clients, r.inbounds, jobIds);
    InboundsShown(first, r, request);
    PatchedApart(r0, first, r, request, jobIds);
    OverwrittenExact(ideal, r2, u.clients, u.inbounds, r.clients, r.inbounds, jobIds);
    forall i | i in r.inbounds
      ensures r.inbounds[i].tag in ideal && ideal[r.inbounds[i].tag] == Rendered(r.clients, i, r.inbounds[i]) <==> StaysAsItIs(r, u, i)
    {
      IdealKeeps(ideal, r, request, i);
    }
  }

  lemma PatchedApart(r0: Listeners, first: Listeners, r: InboundRows, request: InboundRequest, ids: set<nat>)
    requires Restarted(r0, first, r.clients, r.inbounds, ids)
    ensures forall tag :: Apart(r.inbounds, ids, tag) ==>
      && (tag in Patched(r0, r, request) <==> tag in Patched(first, r, request))
      && (tag in Patched(r0, r, request) ==> Patched(r0, r, request)[tag] == Patched(first, r, request)[tag])
  {
    hide Rendered, Initial;
  }

  lemma IdealKeeps(ideal: Listeners, r: InboundRows, request: InboundRequest, i: nat)
    requires InboundSaves.Sound(r) && i in r.inbounds
    requires var u := InboundSaves.Saved(r, request); Shows(ideal, u.clients, u.inbounds) && InboundTagsUnique(u.inbounds)
    ensures r.inbounds[i].tag in ideal && ideal[r.inbounds[i].tag] == Rendered(r.clients, i, r.inbounds[i]) <==>
      StaysAsItIs(r, InboundSaves.Saved(r, request), i)
  {
    hide Rendered, WithInbound, WithoutInbound, IdOf;
    var u := InboundSaves.Saved(r, request);
    var tag := r.inbounds[i].tag;
    if tag in ideal && ideal[tag] == Rendered(r.clients, i, r.inbounds[i]) {
      var j :| j in u.inbounds && u.inbounds[j].tag == tag;
      TagStays(r, request, i, j);
    }
  }

  lemma TagStays(r: InboundRows, request: InboundRequest, i: nat, j: nat)
    requires InboundSaves.Sound(r) && i in r.inbounds
    requires var u := InboundSaves.Saved(r, request);
      InboundTagsUnique(u.inbounds) && j in u.inbounds && u.inbounds[j].tag == r.inbounds[i].tag
    ensures i == j
  {
    hide WithInbound, WithoutInbound, IdOf;
    var u := InboundSaves.Saved(r, request);
    assert !request.DeleteInbound? ==>
        forall k :: k in r.inbounds && k != InboundSaves.KeyFor(r, request.id) ==> k in u.inbounds && u.inbounds[k] == r.inbounds[k];
  }
}
