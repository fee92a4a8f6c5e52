/**
 Saving inbounds and restarting those whose users changed (service/inbounds.go:103-202, 331-362;
 service/client.go:325-417). The running core is changed first, the rows after it.
 */
module InboundSaves {
  import opened Clients
  import opened Rendering
  import opened RunningCore
  import opened UintArrays
  import opened Wrappers

  datatype InboundRequest =
    | NewInbound(id: nat, inbound: Inbound, initIds: seq<nat>)
    | EditInbound(id: nat, inbound: Inbound)
    | DeleteInbound(tag: string)

  /** The rows an inbound save works on. */
  datatype InboundRows = InboundRows(clients: Table, inbounds: InboundTable, next: nat)

  /** Identifiers are positive and below the next one, tags unique. */
  ghost predicate Sound(r: InboundRows) {
    r.next > 0 && (forall i :: i in r.inbounds ==> 0 < i < r.next) && InboundTagsUnique(r.inbounds)
  }

  ghost predicate TagsGiven(inbounds: InboundTable) {
    forall i :: i in inbounds ==> inbounds[i].tag != ""
  }

  /** Clients refer to inbounds that exist. */
  ghost predicate Referring(t: Table, inbounds: InboundTable) {
    forall id, i :: id in t && i in t[id].inbounds ==> i in inbounds
  }

  function KeyFor(r: InboundRows, id: nat): nat {
    if id == 0 then r.next else id
  }

  /** `UpdateClientsOnInboundAdd` */
  function WithInbound(t: Table, ids: seq<nat>, inbound: nat): (u: Table)
    ensures u.Keys == t.Keys
  {
    map id | id in t :: if id in ids then t[id].(inbounds := t[id].inbounds + [inbound]) else t[id]
  }

  function Without(xs: seq<nat>, x: nat): (ys: seq<nat>)
    ensures forall y :: y in ys <==> y in xs && y != x
  {
    if xs == [] then []
    else
      var ys := Without(xs[..|xs| - 1], x);
      assert xs == xs[..|xs| - 1] + [xs[|xs| - 1]];
      if xs[|xs| - 1] == x then ys else ys + [xs[|xs| - 1]]
  }

  /** `UpdateClientsOnInboundDelete` */
  function WithoutInbound(t: Table, inbound: nat): (u: Table)
    ensures u.Keys == t.Keys
  {
    map id | id in t :: if inbound in t[id].inbounds then t[id].(inbounds := Without(t[id].inbounds, inbound)) else t[id]
  }

  ghost predicate HasTag(inbounds: InboundTable, tag: string) {
    exists i :: i in inbounds && inbounds[i].tag == tag
  }

  ghost function IdOf(inbounds: InboundTable, tag: string): (id: nat)
    ensures HasTag(inbounds, tag) ==> id in inbounds && inbounds[id].tag == tag
    ensures !HasTag(inbounds, tag) ==> id == 0
  {
    if HasTag(inbounds, tag) then var i :| i in inbounds && inbounds[i].tag == tag; i else 0
  }

  ghost function Saved(r: InboundRows, request: InboundRequest): InboundRows {
    match request
    case NewInbound(id, inbound, initIds) =>
      var key := KeyFor(r, id);
      InboundRows(WithInbound(r.clients, initIds, key), r.inbounds[key := inbound], if key < r.next then r.next else key + 1)
    case EditInbound(id, inbound) =>
      var key := KeyFor(r, id);
      r.(inbounds := r.inbounds[key := inbound], next := if key < r.next then r.next else key + 1)
    case DeleteInbound(tag) =>
      r.(clients := WithoutInbound(r.clients, IdOf(r.inbounds, tag)),
         inbounds := map i | i in r.inbounds && r.inbounds[i].tag != tag :: r.inbounds[i])
  }

  /** A save needs a tag that no other inbound bears. */
  predicate Possible(r: InboundRows, request: InboundRequest) {
    !request.DeleteInbound? ==>
      forall j :: j in r.inbounds && j != KeyFor(r, request.id) ==> r.inbounds[j].tag != request.inbound.tag
  }

  /** `initUsers`: the enabled clients among the given ones. */
  function Initial(t: Table, inbound: Inbound, ids: seq<nat>): (l: Listener)
    ensures l.inbound == inbound
  {
    var selected := map id | id in t && t[id].enable && id in ids :: t[id].config;
    Listener(inbound, if HasUser(inbound.kind) then Some(FetchUsers(inbound, selected)) else None)
  }

  function OldTag(r: InboundRows, id: nat): string {
    if id in r.inbounds then r.inbounds[id].tag else ""
  }

  /** What the save makes of the running inbounds. */
  function Patched(running: Listeners, r: InboundRows, request: InboundRequest): Listeners {
    match request
    case NewInbound(id, inbound, initIds) => running[inbound.tag := Initial(r.clients, inbound, initIds)]
    case EditInbound(id, inbound) => (running - {OldTag(r, id)})[inbound.tag := Rendered(r.clients, id, inbound)]
    case DeleteInbound(tag) => running - {tag}
  }

  /** The inbounds among `ids` are rendered anew, the others untouched. */
  ghost predicate Restarted(before: Listeners, after: Listeners, t: Table, inbounds: InboundTable, ids: set<nat>) {
    && (forall i :: i in inbounds && i in ids ==> inbounds[i].tag in after && after[inbounds[i].tag] == Rendered(t, i, inbounds[i]))
    && (forall tag :: (forall i :: i in inbounds && i in ids ==> inbounds[i].tag != tag) ==>
        (tag in after <==> tag in before) && (tag in after ==> after[tag] == before[tag]))
  }

  /** The rows after a save, field by field. A new inbound is referred to by the given clients as well, a deleted one by
      none; nothing else of a client changes. */
  ghost predicate RowsWritten(r: InboundRows, request: InboundRequest, u: InboundRows) {
    && u.clients.Keys == r.clients.Keys
    && (forall c :: c in r.clients ==> u.clients[c] == r.clients[c].(inbounds := u.clients[c].inbounds))
    && match request
       case NewInbound(id, inbound, initIds) =>
         var key := if id == 0 then r.next else id;
         && u.inbounds == r.inbounds[key := inbound]
         && forall c :: c in r.clients ==> u.clients[c].inbounds == r.clients[c].inbounds + if c in initIds then [key] else []
       case EditInbound(id, inbound) => u.inbounds == r.inbounds[if id == 0 then r.next else id := inbound] && u.clients == r.clients
       case DeleteInbound(tag) =>
         && (forall i :: i in u.inbounds <==> i in r.inbounds && r.inbounds[i].tag != tag)
         && (forall i :: i in u.inbounds ==> u.inbounds[i] == r.inbounds[i])
         && forall c, x :: c in r.clients && x > 0 ==>
             (x in u.clients[c].inbounds <==> x in r.clients[c].inbounds && !(x in r.inbounds && r.inbounds[x].tag == tag))
  }

  lemma SavedRows(r: InboundRows, request: InboundRequest)
    requires Sound(r)
    ensures RowsWritten(r, request, Saved(r, request))
  {
    if request.DeleteInbound? {
      var id := IdOf(r.inbounds, request.tag);
      assert HasTag(r.inbounds, request.tag) ==> forall i :: i in r.inbounds && r.inbounds[i].tag == request.tag ==> i == id;
    }
  }

  class InboundService {
    const core: Core

    constructor (core: Core)
      ensures this.core == core
    {
      this.core := core;
    }

    /** `RestartInbounds`: each of the inbounds is removed and added with the users it has now. */
    method RestartInbounds(t: Table, inbounds: InboundTable, ids: seq<nat>) returns (ok: bool)
      requires core.Valid() && InboundTagsUnique(inbounds)
      modifies core
      ensures core.Valid() && core.isRunning == old(core.isRunning)
      ensures !old(core.isRunning) ==> ok && core.instance == old(core.instance)
      ensures core.reliable ==> ok
      ensures ok && core.isRunning ==>
        && core.instance == Some(old(core.instance).value.(inbounds := core.instance.value.inbounds))
        && Restarted(old(core.instance).value.inbounds, core.instance.value.inbounds, t, inbounds, Members(ids))
    {
      hide Rendered;
      if !core.isRunning {
        return true;
      }
      var fails: bool := *;
      if fails && !core.reliable {
        return false;
      }
      ghost var before := core.instance.value;
      var rows := KeysOf(set i | i in inbounds && i in ids);
      for n := 0 to |rows|
        invariant core.Valid() && core.isRunning
        invariant core.instance.value == before.(inbounds := core.instance.value.inbounds)
        invariant Restarted(before.inbounds, core.instance.value.inbounds, t, inbounds, Members(rows[..n]))
      {
        assert rows[n] in rows;
        var inbound := inbounds[rows[n]];
        ghost var running := core.instance.value.inbounds;
        var removed := core.RemoveInbound(inbound.tag);
        if removed == Broken {
          return false;
        }
        ok := core.AddInbound(Rendered(t, rows[n], inbound));
        if !ok {
          return false;
        }
        assert core.instance.value.inbounds == (running - {inbound.tag})[inbound.tag := Rendered(t, rows[n], inbound)];
        RestartedNext(before.inbounds, running, t, inbounds, rows, n);
      }
      assert rows[..|rows|] == rows;
      RestartedSame(before.inbounds, core.instance.value.inbounds, t, inbounds, rows, ids);
      ok := true;
    }

    /** The running part of a save, before any row is written. */
    method Apply(r: InboundRows, request: InboundRequest) returns (ok: bool)
      requires core.Valid() && core.isRunning
      modifies core
      ensures core.Valid() && core.isRunning && (core.reliable ==> ok)
      ensures ok ==>
        core.instance == Some(old(core.instance).value.(inbounds := Patched(old(core.instance).value.inbounds, r, request)))
    {
      hide Rendered, Initial;
      match request {
        case NewInbound(id, inbound, initIds) =>
          ok := core.AddInbound(Initial(r.clients, inbound, initIds));
        case EditInbound(id, inbound) =>
          var removed := core.RemoveInbound(OldTag(r, id));
          if removed == Broken {
            return false;
          }
          ok := core.AddInbound(Rendered(r.clients, id, inbound));
        case DeleteInbound(tag) =>
          var removed := core.RemoveInbound(tag);
          ok := removed != Broken;
      }
    }

    /** `InboundService.Save`; None stands for an error, after which the core may run anything. */
    method Save(r: InboundRows, request: InboundRequest) returns (saved: Option<InboundRows>)
      requires core.Valid() && Sound(r)
      modifies core
      ensures core.Valid() && core.isRunning == old(core.isRunning)
      ensures !core.isRunning ==> core.instance == old(core.instance)
      ensures saved.Some? ==> saved.value == Saved(r, request) && Sound(saved.value) && Possible(r, request)
      ensures saved.Some? ==> RowsWritten(r, request, saved.value)
      ensures core.reliable ==> (saved.Some? <==> Possible(r, request))
      ensures saved.Some? && core.isRunning ==>
        core.instance == Some(old(core.instance).value.(inbounds := Patched(old(core.instance).value.inbounds, r, request)))
    {
      hide Rendered, Initial, Patched, RowsWritten;
      var fails: bool := *;
      if fails && !core.reliable {
        return None;
      }
      if core.isRunning {
        var ok := Apply(r, request);
        if !ok {
          return None;
        }
      }
      saved := Write(r, request);
    }

    /** The rows of a save. A tag that another row bears violates the unique index. */
    method Write(r: InboundRows, request: InboundRequest) returns (saved: Option<InboundRows>)
      requires Sound(r)
      ensures saved.Some? ==> saved.value == Saved(r, request) && Sound(saved.value) && Possible(r, request)
      ensures saved.Some? ==> RowsWritten(r, request, saved.value)
      ensures core.reliable ==> (saved.Some? <==> Possible(r, request))
    {
      hide Possible, RowsWritten;
      SavedRows(r, request);
      var fails: bool := *;
      if !Possible(r, request) || (fails && !core.reliable) {
        return None;
      }
      SavedIsSound(r, request);
      match request {
        case NewInbound(id, inbound, initIds) =>
          var key := KeyFor(r, id);
          var clients := UpdateClientsOnInboundAdd(r.clients, initIds, key);
          saved := Some(InboundRows(clients, r.inbounds[key := inbound], if key < r.next then r.next else key + 1));
        case EditInbound(id, inbound) =>
          var key := KeyFor(r, id);
          saved := Some(r.(inbounds := r.inbounds[key := inbound], next := if key < r.next then r.next else key + 1));
        case DeleteInbound(tag) =>
          var id := 0;
          if exists i | i in r.inbounds :: r.inbounds[i].tag == tag {
            id :| id in r.inbounds && r.inbounds[id].tag == tag;
          }
          var clients := UpdateClientsOnInboundDelete(r.clients, id);
          saved := Some(r.(clients := clients, inbounds := map i | i in r.inbounds && r.inbounds[i].tag != tag :: r.inbounds[i]));
      }
    }
  }

  lemma SavedIsSound(r: InboundRows, request: InboundRequest)
    requires Sound(r) && Possible(r, request)
    ensures Sound(Saved(r, request))
  {
  }

  method UpdateClientsOnInboundAdd(t: Table, ids: seq<nat>, inbound: nat) returns (u: Table)
    ensures u == WithInbound(t, ids, inbound)
  {
    u := t;
    var rows := KeysOf(set id | id in t && id in ids);
    for n := 0 to |rows|
      invariant u.Keys == t.Keys
      invariant forall id :: id in t ==> u[id] == if id in rows[..n] then t[id].(inbounds := t[id].inbounds + [inbound]) else t[id]
    {
      assert rows[n] in rows;
      assert rows[n] !in rows[..n];
      u := u[rows[n] := u[rows[n]].(inbounds := u[rows[n]].inbounds + [inbound])];
    }
    assert rows[..|rows|] == rows;
  }

  method UpdateClientsOnInboundDelete(t: Table, inbound: nat) returns (u: Table)
    ensures u == WithoutInbound(t, inbound)
  {
    u := t;
    var rows := KeysOf(set id | id in t && inbound in t[id].inbounds);
    for n := 0 to |rows|
      invariant u.Keys == t.Keys
      invariant forall id :: id in t ==>
        u[id] == if id in rows[..n] then t[id].(inbounds := Without(t[id].inbounds, inbound)) else t[id]
    {
      assert rows[n] in rows;
      assert rows[n] !in rows[..n];
      var kept := Filter(u[rows[n]].inbounds, inbound);
      u := u[rows[n] := u[rows[n]].(inbounds := kept)];
    }
    assert rows[..|rows|] == rows;
  }

  /** The inner loop of the removal. */
  method Filter(xs: seq<nat>, x: nat) returns (ys: seq<nat>)
    ensures ys == Without(xs, x)
  {
    ys := [];
    for n := 0 to |xs|
      invariant ys == Without(xs[..n], x)
    {
      assert xs[..n + 1][..n] == xs[..n];
      if xs[n] != x {
        ys := ys + [xs[n]];
      }
    }
    assert xs[..|xs|] == xs;
  }

  lemma RestartedNext(before: Listeners, running: Listeners, t: Table, inbounds: InboundTable, rows: seq<nat>, n: nat)
    requires n < |rows| && rows[n] in inbounds && InboundTagsUnique(inbounds)
    requires Restarted(before, running, t, inbounds, Members(rows[..n]))
    ensures var inbound := inbounds[rows[n]];
      Restarted(before, (running - {inbound.tag})[inbound.tag := Rendered(t, rows[n], inbound)], t, inbounds, Members(rows[..n + 1]))
  {
    hide Rendered;
    assert rows[..n + 1] == rows[..n] + [rows[n]];
    assert Members(rows[..n + 1]) == Members(rows[..n]) + {rows[n]};
  }

  lemma RestartedSame(before: Listeners, after: Listeners, t: Table, inbounds: InboundTable, rows: seq<nat>, ids: seq<nat>)
    requires forall i :: i in rows <==> i in inbounds && i in ids
    requires Restarted(before, after, t, inbounds, Members(rows))
    ensures Restarted(before, after, t, inbounds, Members(ids))
  {
    hide Rendered;
  }
}
