/**
 Saving outbounds (service/outbounds.go:62-123): the tag is checked, then the running core is changed, then the row is
 written.
 */
module OutboundSaves {
  import opened EgressStore
  import opened EgressTables
  import opened Rendering
  import opened RunningCore
  import opened Strings
  import opened WireGuardModel
  import opened Wrappers

  datatype OutboundRequest =
    | NewOutbound(id: nat, outbound: Outbound)
    | EditOutbound(id: nat, outbound: Outbound)
    | DropOutbound(tag: string)

  ghost predicate TagsGiven(outbounds: map<nat, Outbound>) {
    forall i :: i in outbounds ==> outbounds[i].tag != ""
  }

  function Trimmed(outbound: Outbound): Outbound {
    outbound.(tag := Trim(outbound.tag))
  }

  function KeyFor(t: Tables, id: nat): nat {
    if id == 0 then t.nextOutbound else id
  }

  function OldTag(t: Tables, id: nat): string {
    if id in t.outbounds then t.outbounds[id].tag else ""
  }

  /** The rows after the save. */
  function Written(t: Tables, request: OutboundRequest): map<nat, Outbound> {
    match request
    case DropOutbound(tag) => Dropped(t.outbounds, tag)
    case _ => t.outbounds[KeyFor(t, request.id) := Trimmed(request.outbound)]
  }

  /** A save needs a tag that no other outbound and no endpoint bears. */
  predicate Possible(t: Tables, request: OutboundRequest) {
    !request.DropOutbound? ==> OutboundTagFree(t, request.id, Trim(request.outbound.tag))
  }

  /** What the save makes of the running outbounds. */
  function Patched(running: map<string, Outbound>, t: Tables, request: OutboundRequest): map<string, Outbound> {
    match request
    case NewOutbound(id, outbound) => running[Trim(outbound.tag) := Trimmed(outbound)]
    case EditOutbound(id, outbound) => (running - {OldTag(t, id)})[Trim(outbound.tag) := Trimmed(outbound)]
    case DropOutbound(tag) => running - {tag}
  }

  /** The running part. */
  method Apply(core: Core, t: Tables, request: OutboundRequest) returns (ok: bool)
    requires core.Valid() && core.isRunning
    modifies core
    ensures core.Valid() && core.isRunning && (core.reliable ==> ok)
    ensures ok ==>
      core.instance == Some(old(core.instance).value.(outbounds := Patched(old(core.instance).value.outbounds, t, request)))
  {
    hide Trim;
    match request {
      case NewOutbound(id, outbound) =>
        ok := core.AddOutbound(Trimmed(outbound));
      case EditOutbound(id, outbound) =>
        var removed := core.RemoveOutbound(OldTag(t, id));
        if removed == Broken {
          return false;
        }
        ok := core.AddOutbound(Trimmed(outbound));
      case DropOutbound(tag) =>
        var removed := core.RemoveOutbound(tag);
        ok := removed != Broken;
    }
  }

  /** The rows of a save: `done` tells whether it went through. */
  ghost predicate RowsSaved(t: Tables, request: OutboundRequest, reliable: bool, done: bool, u: Tables) {
    && (done ==>
        && Possible(t, request) && u == t.(outbounds := Written(t, request), nextOutbound := u.nextOutbound)
        && Keyed(u) && (Exact(t) ==> Exact(u)))
    && (!done ==> u == t && !(reliable && Possible(t, request)))
  }

  lemma StepSavesRows(lib: Library, reliable: bool, t: Tables, request: OutboundRequest, done: bool, u: Tables)
    requires Keyed(t)
    requires StepOf(lib, reliable, t, if request.DropOutbound? then Request.DeleteOutbound(request.tag)
                                      else Request.SaveOutbound(request.id, request.outbound), done, u)
    ensures RowsSaved(t, request, reliable, done, u)
  {
    hide Trim, OutboundTagFree, TagsUnique, Exact;
    var step := if request.DropOutbound? then Request.DeleteOutbound(request.tag) else Request.SaveOutbound(request.id, request.outbound);
    if done {
      PerformedKeepsKeys(lib, t, step, u);
      if Exact(t) {
        SameEndpointsExact(t, u);
      }
    }
  }

  method WriteRows(tx: Store, request: OutboundRequest) returns (ok: bool)
    requires Keyed(tx.tables)
    modifies tx`tables
    ensures Keyed(tx.tables) && RowsSaved(old(tx.tables), request, tx.reliable, ok, tx.tables)
  {
    hide Keyed, StepOf, RowsSaved;
    ghost var lib := Library(x => None, p => "", x => false, x => "");
    match request {
      case DropOutbound(tag) =>
        ok := tx.DeleteOutbound(tag);
        StepSavesRows(lib, tx.reliable, old(tx.tables), request, ok, tx.tables);
      case _ =>
        var saved := tx.SaveOutbound(request.id, request.outbound);
        ok := saved.Some?;
        StepSavesRows(lib, tx.reliable, old(tx.tables), request, ok, tx.tables);
    }
  }

  /** `OutboundService.Save` on the transaction `tx`. */
  method Save(core: Core, tx: Store, request: OutboundRequest) returns (ok: bool)
    requires core.Valid() && Keyed(tx.tables) && core.reliable == tx.reliable
    modifies core, tx`tables
    ensures core.Valid() && core.isRunning == old(core.isRunning)
    ensures !core.isRunning ==> core.instance == old(core.instance)
    ensures RowsSaved(old(tx.tables), request, tx.reliable, ok, tx.tables)
    ensures ok && core.isRunning ==>
      var config := old(core.instance).value;
      core.instance == Some(config.(outbounds := Patched(config.outbounds, old(tx.tables), request)))
  {
    hide Keyed, Exact, Trim, Patched, Written;
    if !request.DropOutbound? {
      TrimTrims(request.outbound.tag);
      var free := EnsureEgressTagAvailable(tx.tables, false, request.id, Trim(request.outbound.tag));
      if !free {
        return false;
      }
    }
    if core.isRunning {
      ok := Apply(core, tx.tables, request);
      if !ok {
        return;
      }
    }
    ok := WriteRows(tx, request);
  }

  // ---------------------------------------------------------------- the running outbounds follow

  /** A new outbound that overwrites a row must keep its tag. */
  predicate NewOutboundFits(t: Tables, id: nat, outbound: Outbound) {
    id in t.outbounds ==> t.outbounds[id].tag == Trim(outbound.tag)
  }

  lemma ReplaceExact(running: map<string, Outbound>, outbounds: map<nat, Outbound>, key: nat, outbound: Outbound, removed: set<string>)
    requires OutboundTagsUnique(outbounds) && OutboundTagsUnique(outbounds[key := outbound]) && ShowsOutbounds(running, outbounds)
    requires forall i :: i in outbounds && i != key ==> outbounds[i].tag !in removed
    ensures ShowsOutbounds((running - removed)[outbound.tag := outbound], outbounds[key := outbound]) <==>
      (key in outbounds ==> outbounds[key].tag == outbound.tag || outbounds[key].tag in removed)
  {
    var after, outbounds' := (running - removed)[outbound.tag := outbound], outbounds[key := outbound];
    forall i | i in outbounds'
      ensures outbounds'[i].tag in after && after[outbounds'[i].tag] == outbounds'[i]
    {
      if i != key {
        assert outbounds'[i].tag != outbounds'[key].tag;
      }
    }
    assert outbounds'[key] == outbound;
    if key in outbounds && outbounds[key].tag != outbound.tag && outbounds[key].tag !in removed {
      assert outbounds[key].tag in after && forall i :: i in outbounds' ==> outbounds'[i].tag != outbounds[key].tag;
    } else {
      forall tag | tag in after
        ensures exists i :: i in outbounds' && outbounds'[i].tag == tag
      {
        if tag != outbound.tag {
          var i :| i in outbounds && outbounds[i].tag == tag;
          assert i != key;
          assert outbounds'[i].tag == tag;
        }
      }
    }
  }

  /** Changing the running outbounds step by step gives the full rendering, except for a new outbound that
      overwrites a row of another tag. */
  lemma OutboundsShown(running: map<string, Outbound>, t: Tables, request: OutboundRequest)
    requires OutboundTagsUnique(t.outbounds) && OutboundTagsUnique(Written(t, request)) && ShowsOutbounds(running, t.outbounds)
    requires EgressTables.IdsBelowNext(t) && TagsGiven(t.outbounds)
    ensures ShowsOutbounds(Patched(running, t, request), Written(t, request)) <==>
      (request.NewOutbound? ==> NewOutboundFits(t, request.id, request.outbound))
  {
    hide Trim, ShowsOutbounds, OutboundTagsUnique;
    match request
    case NewOutbound(id, outbound) =>
      assert running - {} == running;
      ReplaceExact(running, t.outbounds, KeyFor(t, id), Trimmed(outbound), {});
    case EditOutbound(id, outbound) =>
      OldTagOfOthers(t, id);
      ReplaceExact(running, t.outbounds, KeyFor(t, id), Trimmed(outbound), {OldTag(t, id)});
    case DropOutbound(tag) =>
      DroppedShown(running, t.outbounds, tag);
  }

  /** A "new" outbound under the identifier of one with another tag: the old one runs on beside it. */
  lemma OverwrittenOutboundRunsOn()
    ensures var t := Tables(map[], map[1 := Outbound("direct", "old", "")], map[], 1, 2);
      var request := NewOutbound(1, Outbound("direct", "new", ""));
      var running := map["old" := Outbound("direct", "old", "")];
      && TagsUnique(t) && EgressTables.IdsBelowNext(t) && TagsGiven(t.outbounds) && ShowsOutbounds(running, t.outbounds)
      && OutboundTagsUnique(Written(t, request)) && !ShowsOutbounds(Patched(running, t, request), Written(t, request))
  {
    var t := Tables(map[], map[1 := Outbound("direct", "old", "")], map[], 1, 2);
    var request := NewOutbound(1, Outbound("direct", "new", ""));
    var running := map["old" := Outbound("direct", "old", "")];
    TrimFixed();
    assert t.outbounds[1].tag == "old";
    OutboundsShown(running, t, request);
  }

  lemma TrimFixed()
    ensures Trim("new") == "new"
  {
    assert TrimLeft("new") == "new";
  }

  lemma OldTagOfOthers(t: Tables, id: nat)
    requires OutboundTagsUnique(t.outbounds) && TagsGiven(t.outbounds) && EgressTables.IdsBelowNext(t)
    ensures forall i :: i in t.outbounds && i != KeyFor(t, id) ==> t.outbounds[i].tag != OldTag(t, id)
    ensures KeyFor(t, id) in t.outbounds ==> t.outbounds[KeyFor(t, id)].tag == OldTag(t, id)
  {
  }

  lemma DroppedShown(running: map<string, Outbound>, outbounds: map<nat, Outbound>, tag: string)
    requires ShowsOutbounds(running, outbounds)
    ensures ShowsOutbounds(running - {tag}, Dropped(outbounds, tag))
  {
    var after := Dropped(outbounds, tag);
    forall other | other in running - {tag}
      ensures exists i :: i in after && after[i].tag == other
    {
      var i :| i in outbounds && outbounds[i].tag == other;
      assert i in after;
    }
  }
}
