/**
 The two services that save endpoints and outbounds, as operations on the committed tables. Each works on a
 transaction, a private copy of the tables that replaces them on success and is dropped on any error.
 */
module EgressStore {
  import opened Prefixes
  import opened Strings
  import opened Wrappers
  import opened WireGuardModel
  import opened WireGuardNormalizer
  import opened WireGuardSecrets
  import opened ManagedRoutes
  import opened EgressTables

  datatype Request =
    | SaveEndpoint(act: Act, id: nat, payload: Row)
    | DeleteEndpoint(tag: string)
    | SaveOutbound(id: nat, outbound: Outbound)
    | DeleteOutbound(tag: string)

  // ---------------------------------------------------------------- what a request does

  /** The submitted endpoint with the secrets of the row it edits. */
  function Submitted(t: Tables, act: Act, id: nat, payload: Row): Endpoint {
    if act == Edit && id in t.endpoints && payload.endpoint.kind == "wireguard"
    then Merged(payload.endpoint, t.endpoints[id].endpoint, t.endpoints[id].ext) else payload.endpoint
  }

  /** An endpoint is saved only if an edited row exists, a strict WireGuard endpoint is accepted and the tag is
      free; an outbound if its tag is free. */
  ghost predicate Possible(lib: Library, t: Tables, request: Request) {
    match request
    case SaveEndpoint(act, id, payload) =>
      var merged := Submitted(t, act, id, payload);
      && (act == Edit ==> id in t.endpoints) && (Strict(merged) ==> Accepts(lib, merged))
      && EndpointTagFree(t, id, Trim(payload.endpoint.tag))
    case SaveOutbound(id, outbound) => OutboundTagFree(t, id, Trim(outbound.tag))
    case _ => true
  }

  /** What is stored: a strict WireGuard endpoint in normal form, any other as it was submitted. Registration with
      the WARP service may change anything but the kind and the tag. */
  ghost predicate StoredForm(lib: Library, merged: Endpoint, payload: Row, row: Row) {
    && row.endpoint.kind == payload.endpoint.kind && row.endpoint.tag == Trim(payload.endpoint.tag)
    && (payload.endpoint.kind != "warp" ==>
        row == Row((if Strict(merged) then Normalized(lib, merged) else merged).(tag := Trim(payload.endpoint.tag)), payload.ext))
  }

  /** The rows after a request that succeeds. */
  ghost predicate Performed(lib: Library, t: Tables, request: Request, u: Tables) {
    match request
    case SaveEndpoint(act, id, payload) =>
      var key := if id == 0 then t.nextEndpoint else id;
      && (act == Edit ==> id in t.endpoints) && key in u.endpoints
      && var row := u.endpoints[key];
      && u == t.(endpoints := t.endpoints[key := row], managed := u.managed,
                 nextEndpoint := if key < t.nextEndpoint then t.nextEndpoint else key + 1)
      && StoredForm(lib, Submitted(t, act, id, payload), payload, row)
      && Synced(t, row, if act == Edit && TagOf(t, id) != row.endpoint.tag then Some(TagOf(t, id)) else None, u.managed)
    case DeleteEndpoint(tag) =>
      u == t.(endpoints := map i | i in t.endpoints && TagOf(t, i) != tag :: t.endpoints[i], managed := WithoutTag(t.managed, tag))
    case SaveOutbound(id, outbound) =>
      var key := if id == 0 then t.nextOutbound else id;
      u == t.(outbounds := t.outbounds[key := outbound.(tag := Trim(outbound.tag))],
              nextOutbound := if key < t.nextOutbound then t.nextOutbound else key + 1)
    case DeleteOutbound(tag) =>
      u == t.(outbounds := Dropped(t.outbounds, tag))
  }

  /** The request overwrites an endpoint with rules under another tag. */
  ghost predicate Renames(t: Tables, request: Request, u: Tables) {
    request.SaveEndpoint? &&
    var key := if request.id == 0 then t.nextEndpoint else request.id;
    key in u.endpoints && Overwrites(t, request.act, key, u.endpoints[key])
  }

  ghost predicate Keyed(t: Tables) {
    TagsUnique(t) && IdsBelowNext(t)
  }

  lemma PerformedKeepsKeys(lib: Library, t: Tables, request: Request, u: Tables)
    requires Keyed(t) && Possible(lib, t, request) && Performed(lib, t, request, u)
    ensures Keyed(u)
  {
    hide Accepts, Normalized, Merged, Trim, Synced, Strict, TagsUnique, EndpointTagFree, OutboundTagFree;
    match request
    case SaveEndpoint(act, id, payload) =>
      var key := if id == 0 then t.nextEndpoint else id;
      RowTag(lib, t, request, u);
      FreshKeyFree(t, id, key, u.endpoints[key].endpoint.tag);
      SavedTagsUnique(t, key, u.endpoints[key], u);
    case SaveOutbound(id, outbound) =>
      SavedOutboundUnique(t, id, outbound.(tag := Trim(outbound.tag)), u);
    case _ =>
      FewerTagsUnique(t, u);
  }

  lemma SavedOutboundUnique(t: Tables, id: nat, outbound: Outbound, u: Tables)
    requires Keyed(t) && OutboundTagFree(t, id, outbound.tag) && u.endpoints == t.endpoints
    requires u.outbounds == t.outbounds[if id == 0 then t.nextOutbound else id := outbound]
    ensures TagsUnique(u)
  {
  }

  lemma FewerTagsUnique(t: Tables, u: Tables)
    requires TagsUnique(t)
    requires forall i :: i in u.endpoints ==> i in t.endpoints && u.endpoints[i] == t.endpoints[i]
    requires forall j :: j in u.outbounds ==> j in t.outbounds && u.outbounds[j] == t.outbounds[j]
    ensures TagsUnique(u)
  {
  }

  lemma PerformedKeepsRules(lib: Library, t: Tables, request: Request, u: Tables)
    requires Keyed(t) && Exact(t) && Possible(lib, t, request) && Performed(lib, t, request, u)
    ensures Exact(u) <==> !Renames(t, request, u)
  {
    hide Accepts, Normalized, Merged, Trim, Strict, Synced, Exact, Overwrites, TagsUnique, StoredForm;
    match request
    case SaveEndpoint(act, id, payload) =>
      var key := if id == 0 then t.nextEndpoint else id;
      var row := u.endpoints[key];
      RowTag(lib, t, request, u);
      FreshKeyFree(t, id, key, row.endpoint.tag);
      FreshIdentifier(t);
      SavedRulesExact(t, act, key, row, if act == Edit && TagOf(t, id) != row.endpoint.tag then Some(TagOf(t, id)) else None, u);
    case DeleteEndpoint(tag) =>
      DeletedRulesExact(t, tag, u);
    case SaveOutbound(id, outbound) =>
      SameEndpointsExact(t, u);
    case DeleteOutbound(tag) =>
      SameEndpointsExact(t, u);
  }

  lemma RowTag(lib: Library, t: Tables, request: Request, u: Tables)
    requires request.SaveEndpoint? && Performed(lib, t, request, u)
    ensures u.endpoints[if request.id == 0 then t.nextEndpoint else request.id].endpoint.tag == Trim(request.payload.endpoint.tag)
  {
    hide Normalized, Merged, Trim, Strict, Synced;
  }

  /** A run: each request is performed, or leaves everything as it is; if no step fails of itself, it is performed
      whenever that is possible. */
  ghost predicate IsRun(lib: Library, reliable: bool, trace: seq<Tables>, requests: seq<Request>, done: seq<bool>) {
    && |trace| == |requests| + 1 && |done| == |requests|
    && forall k :: 0 <= k < |requests| ==> StepOf(lib, reliable, trace[k], requests[k], done[k], trace[k + 1])
  }

  ghost predicate StepOf(lib: Library, reliable: bool, t: Tables, request: Request, done: bool, u: Tables) {
    && (done ==> Possible(lib, t, request) && Performed(lib, t, request, u))
    && (!done ==> u == t && !(reliable && Possible(lib, t, request)))
  }

  /** Over every run of saves and deletes tags are unique across both tables, and as long as no request renames an
      endpoint by overwriting it, the managed rules are exactly those derived from the stored endpoints. */
  lemma {:induction false} RunKeepsRules(lib: Library, reliable: bool, trace: seq<Tables>, requests: seq<Request>, done: seq<bool>, k: nat)
    requires IsRun(lib, reliable, trace, requests, done) && k <= |requests|
    requires Keyed(trace[0]) && Exact(trace[0])
    ensures Keyed(trace[k])
    ensures (forall j :: 0 <= j < k && done[j] ==> !Renames(trace[j], requests[j], trace[j + 1])) ==> Exact(trace[k])
  {
    hide Keyed, Exact, Possible, Performed, Renames;
    if k > 0 {
      RunKeepsRules(lib, reliable, trace, requests, done, k - 1);
      assert StepOf(lib, reliable, trace[k - 1], requests[k - 1], done[k - 1], trace[k - 1 + 1]);
      if done[k - 1] {
        PerformedKeepsKeys(lib, trace[k - 1], requests[k - 1], trace[k]);
        if Exact(trace[k - 1]) {
          PerformedKeepsRules(lib, trace[k - 1], requests[k - 1], trace[k]);
        }
      }
    }
  }

  /** New endpoints that ask for a fresh identifier rename nothing. */
  lemma FreshRenamesNothing(t: Tables, request: Request, u: Tables)
    requires Keyed(t) && (request.SaveEndpoint? && request.act == New ==> request.id == 0)
    ensures !Renames(t, request, u)
  {
    hide TagsUnique, Derives;
  }

  class Store {
    /** No database operation fails of itself. */
    const reliable: bool
    var tables: Tables

    constructor (reliable: bool)
      ensures Valid() && this.reliable == reliable
      ensures tables.endpoints == map[] && tables.managed == map[]
    {
      this.reliable := reliable;
      tables := Tables(map[], map[1 := Outbound("direct", "direct", "{}")], map[], 1, 2);
    }

    /** A transaction on the committed tables. */
    constructor Begin(tables: Tables, reliable: bool)
      ensures this.tables == tables && this.reliable == reliable
    {
      this.tables, this.reliable := tables, reliable;
    }

    ghost predicate Valid()
      reads this
    {
      Keyed(tables) && Exact(tables)
    }

    /** The submitted endpoint with the stored secrets merged in and, when it is a strict WireGuard endpoint,
        normalised; other endpoints pass through. */
    static method Prepare(lib: Library, stored: Option<Row>, payload: Row) returns (r: Option<Row>)
      requires Lawful(lib)
      ensures var merged := if stored.Some? && payload.endpoint.kind == "wireguard"
                then Merged(payload.endpoint, stored.value.endpoint, stored.value.ext) else payload.endpoint;
        && (r.Some? ==> r.value.endpoint.tag == Trim(payload.endpoint.tag) && r.value.endpoint.kind == payload.endpoint.kind)
        && (Strict(merged) ==> (r.Some? <==> Accepts(lib, merged)))
        && (Strict(merged) && r.Some? ==> r.value == Row(Normalized(lib, merged).(tag := Trim(merged.tag)), payload.ext))
        && (!Strict(merged) ==> r == Some(Row(merged.(tag := Trim(merged.tag)), payload.ext)))
    {
      hide Accepts, Normalized, Merged, Lawful, Trim;
      var merged := payload.endpoint;
      if stored.Some? {
        merged := MergeSecrets(merged, stored.value.endpoint, stored.value.ext);
      }
      if stored.Some? {
        MergeKeepsTag(payload.endpoint, stored.value);
      }
      NormalizeKeepsTag(lib, merged);
      var n := NormalizeAndValidate(lib, merged);
      if n.Err? {
        return None;
      }
      r := Some(Row(n.value.(tag := Trim(n.value.tag)), payload.ext));
    }

    /** `EndpointService.Save` for "new" and "edit" inside the save's transaction. Identifier 0 asks for a fresh
        one; "new" with the identifier of an existing row overwrites that row. */
    method SaveEndpoint(lib: Library, act: Act, id: nat, payload: Row) returns (saved: Option<nat>)
      requires Lawful(lib) && Keyed(tables)
      modifies this`tables
      ensures Keyed(tables)
      ensures StepOf(lib, reliable, old(tables), Request.SaveEndpoint(act, id, payload), saved.Some?, tables)
      ensures saved.Some? ==> saved.value == if id == 0 then old(tables).nextEndpoint else id
    {
      hide Accepts, Normalized, Merged, Lawful, Trim, Exact, TagsUnique, Synced, Overwrites, EndpointTagFree;
      var stored: Option<Row> := None;
      if act == Edit {
        if id !in tables.endpoints {
          return None;
        }
        stored := Some(tables.endpoints[id]);
      }
      var prepared := Prepare(lib, stored, payload);
      if prepared.None? {
        return None;
      }
      var row := prepared.value;
      TrimTrims(payload.endpoint.tag);
      var free := EnsureEgressTagAvailable(tables, true, id, row.endpoint.tag);
      if !free {
        return None;
      }
      if row.endpoint.kind == "warp" {
        row := RegisterWarp(row);
      }
      var fails: bool := *;
      if fails && !reliable {
        return None;
      }
      var key := if id == 0 then tables.nextEndpoint else id;
      ghost var before := tables;
      var managed := tables.managed;
      var dropped: Option<string> := None;
      if stored.Some? && stored.value.endpoint.tag != row.endpoint.tag {
        dropped := Some(stored.value.endpoint.tag);
        managed := WithoutTag(managed, stored.value.endpoint.tag);
      }
      managed := SyncManagedRoute(managed, row.endpoint);
      tables := tables.(endpoints := tables.endpoints[key := row], managed := managed,
                        nextEndpoint := if key < tables.nextEndpoint then tables.nextEndpoint else key + 1);
      SyncedBySteps(before, row, dropped, managed);
      if stored.Some? {
        MergeKeepsTag(payload.endpoint, stored.value);
      }
      PreparedIsStored(lib, Submitted(before, act, id, payload), payload, prepared.value, row);
      PerformedKeepsKeys(lib, before, Request.SaveEndpoint(act, id, payload), tables);
      saved := Some(key);
    }

    /** "del": the endpoint with the tag, if any, and its rules. */
    method DeleteEndpoint(tag: string) returns (ok: bool)
      requires Keyed(tables)
      modifies this`tables
      ensures Keyed(tables) && forall lib :: StepOf(lib, reliable, old(tables), Request.DeleteEndpoint(tag), ok, tables)
    {
      ok := *;
      ok := ok || reliable;
      if ok {
        var managed := WithoutTag(tables.managed, tag);
        tables := tables.(endpoints := map i | i in tables.endpoints && TagOf(tables, i) != tag :: tables.endpoints[i],
                          managed := managed);
      }
    }

    /** `OutboundService.Save` for "new" and "edit": the row is inserted or overwritten by identifier. */
    method SaveOutbound(id: nat, outbound: Outbound) returns (saved: Option<nat>)
      requires Keyed(tables)
      modifies this`tables
      ensures Keyed(tables) && forall lib :: StepOf(lib, reliable, old(tables), Request.SaveOutbound(id, outbound), saved.Some?, tables)
      ensures saved.Some? ==> saved.value == if id == 0 then old(tables).nextOutbound else id
      ensures saved.Some? ==>
        && saved.value in tables.outbounds && tables.outbounds == old(tables).outbounds[saved.value := tables.outbounds[saved.value]]
        && var row := tables.outbounds[saved.value];
        && row.kind == outbound.kind && row.tag == Trim(outbound.tag) && row.options == outbound.options
        && tables.endpoints == old(tables).endpoints && tables.managed == old(tables).managed
    {
      hide Trim, TagsUnique, OutboundTagFree;
      ghost var before := tables;
      var row := outbound.(tag := Trim(outbound.tag));
      TrimTrims(outbound.tag);
      var free := EnsureEgressTagAvailable(tables, false, id, row.tag);
      var fails: bool := *;
      if !free || (fails && !reliable) {
        return None;
      }
      var key := if id == 0 then tables.nextOutbound else id;
      tables := tables.(outbounds := tables.outbounds[key := row],
                        nextOutbound := if key < tables.nextOutbound then tables.nextOutbound else key + 1);
      SavedOutboundUnique(before, id, row, tables);
      saved := Some(key);
    }

    method DeleteOutbound(tag: string) returns (ok: bool)
      requires Keyed(tables)
      modifies this`tables
      ensures Keyed(tables) && forall lib :: StepOf(lib, reliable, old(tables), Request.DeleteOutbound(tag), ok, tables)
    {
      hide TagsUnique;
      ok := *;
      ok := ok || reliable;
      if ok {
        FewerTagsUnique(tables, tables.(outbounds := Dropped(tables.outbounds, tag)));
        tables := tables.(outbounds := Dropped(tables.outbounds, tag));
      }
    }

    /** Any run of saves and deletes. `trace` has the tables before, between and after the requests. */
    method Run(lib: Library, requests: seq<Request>) returns (done: seq<bool>, ghost trace: seq<Tables>)
      requires Lawful(lib) && Valid()
      modifies this`tables
      ensures IsRun(lib, reliable, trace, requests, done)
      ensures trace[0] == old(tables) && trace[|requests|] == tables
      ensures forall k :: 0 <= k <= |requests| ==> Keyed(trace[k])
      ensures (forall k :: 0 <= k < |requests| && requests[k].SaveEndpoint? && requests[k].act == New ==> requests[k].id == 0) ==>
        forall k :: 0 <= k <= |requests| ==> Exact(trace[k])
    {
      hide Lawful, Keyed, Exact, StepOf, Renames;
      done, trace := [], [tables];
      for k := 0 to |requests|
        invariant Keyed(tables) && |trace| == k + 1 && |done| == k && trace[0] == old(tables) && trace[k] == tables
        invariant forall j :: 0 <= j < k ==> StepOf(lib, reliable, trace[j], requests[j], done[j], trace[j + 1])
      {
        var ok: bool;
        match requests[k] {
          case SaveEndpoint(act, id, payload) =>
            var saved := SaveEndpoint(lib, act, id, payload);
            ok := saved.Some?;
          case DeleteEndpoint(tag) =>
            ok := DeleteEndpoint(tag);
          case SaveOutbound(id, outbound) =>
            var saved := SaveOutbound(id, outbound);
            ok := saved.Some?;
          case DeleteOutbound(tag) =>
            ok := DeleteOutbound(tag);
        }
        done, trace := done + [ok], trace + [tables];
      }
      forall k | 0 <= k <= |requests|
        ensures Keyed(trace[k])
        ensures (forall j :: 0 <= j < k && done[j] ==> !Renames(trace[j], requests[j], trace[j + 1])) ==> Exact(trace[k])
      {
        RunKeepsRules(lib, reliable, trace, requests, done, k);
      }
      if forall k :: 0 <= k < |requests| && requests[k].SaveEndpoint? && requests[k].act == New ==> requests[k].id == 0 {
        forall j | 0 <= j < |requests|
          ensures !Renames(trace[j], requests[j], trace[j + 1])
        {
          FreshRenamesNothing(trace[j], requests[j], trace[j + 1]);
        }
      }
    }
  }

  lemma PreparedIsStored(lib: Library, merged: Endpoint, payload: Row, prepared: Row, row: Row)
    requires merged.tag == payload.endpoint.tag && merged.kind == payload.endpoint.kind
    requires prepared.endpoint.tag == Trim(payload.endpoint.tag) && prepared.endpoint.kind == payload.endpoint.kind
    requires if Strict(merged) then prepared == Row(Normalized(lib, merged).(tag := Trim(merged.tag)), payload.ext)
             else prepared == Row(merged.(tag := Trim(merged.tag)), payload.ext)
    requires if payload.endpoint.kind == "warp" then row.endpoint.kind == "warp" && row.endpoint.tag == prepared.endpoint.tag
             else row == prepared
    ensures StoredForm(lib, merged, payload, row)
  {
    hide Normalized, Strict;
  }

  /** Registration with the WARP service: it may change anything but the kind and the tag. */
  method RegisterWarp(row: Row) returns (r: Row)
    requires row.endpoint.kind == "warp"
    ensures r.endpoint.kind == row.endpoint.kind && r.endpoint.tag == row.endpoint.tag
  {
    r := *;
    if r.endpoint.kind != row.endpoint.kind || r.endpoint.tag != row.endpoint.tag {
      r := row;
    }
  }

  lemma MergeKeepsTag(e: Endpoint, stored: Row)
    ensures var m := Merged(e, stored.endpoint, stored.ext);
      m.kind == e.kind && m.tag == e.tag && m.schema == e.schema
  {
  }

  lemma NormalizeKeepsTag(lib: Library, e: Endpoint)
    ensures Normalized(lib, e).kind == e.kind && Normalized(lib, e).tag == e.tag
  {
  }

  lemma FreshIdentifier(t: Tables)
    requires IdsBelowNext(t)
    ensures t.nextEndpoint !in t.endpoints
  {
  }

  lemma FreshKeyFree(t: Tables, id: nat, key: nat, tag: string)
    requires IdsBelowNext(t) && key == (if id == 0 then t.nextEndpoint else id)
    ensures EndpointTagFree(t, id, tag) ==> EndpointTagFree(t, key, tag)
  {
  }

  lemma SameEndpointsExact(t: Tables, u: Tables)
    requires Exact(t) && u.endpoints == t.endpoints && u.managed == t.managed
    ensures Exact(u)
  {
    hide Derives;
    forall k | k in u.managed
      ensures Derived(u, u.managed[k])
    {
      assert Derived(t, t.managed[k]);
    }
  }

  lemma SyncedBySteps(t: Tables, row: Row, dropped: Option<string>, managed: map<string, ManagedRule>)
    requires var start := if dropped.Some? then WithoutTag(t.managed, dropped.value) else t.managed;
      && (forall s :: Derives(row.endpoint, s) ==> s.key in managed && managed[s.key] == s)
      && (forall k :: k in managed ==> (k in WithoutTag(start, row.endpoint.tag) && managed[k] == start[k]) ||
                                       (managed[k].key == k && Derives(row.endpoint, managed[k])))
      && (forall k :: k in WithoutTag(start, row.endpoint.tag) ==> k in managed)
    ensures Synced(t, row, dropped, managed)
  {
    hide Derives;
  }
}
