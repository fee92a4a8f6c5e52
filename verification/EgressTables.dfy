/**
 Endpoints and outbounds share one namespace of tags, and the managed-route table follows the endpoints
 (service/endpoints.go:75-156, service/outbounds.go:62-123, service/egress_tags.go:12-58).
 */
module EgressTables {
  import opened Prefixes
  import opened Strings
  import opened Wrappers
  import opened WireGuardModel
  import opened WireGuardNormalizer
  import opened WireGuardSecrets
  import opened ManagedRoutes
  import WireGuardRouting

  datatype Row = Row(endpoint: Endpoint, ext: seq<ExtKey>)

  datatype Outbound = Outbound(kind: string, tag: string, options: string)

  datatype Act = New | Edit

  /** Rows by primary key, managed rules by their unique key. Identifiers start at 1; 0 asks for a new one. */
  datatype Tables = Tables(endpoints: map<nat, Row>, outbounds: map<nat, Outbound>,
                           managed: map<string, ManagedRule>, nextEndpoint: nat, nextOutbound: nat)

  function TagOf(t: Tables, id: nat): string
    requires id in t.endpoints
  {
    t.endpoints[id].endpoint.tag
  }

  // ---------------------------------------------------------------- invariants

  predicate TagsUnique(t: Tables) {
    && (forall i, j :: i in t.endpoints && j in t.endpoints && i != j ==> TagOf(t, i) != TagOf(t, j))
    && (forall i, j :: i in t.outbounds && j in t.outbounds && i != j ==> t.outbounds[i].tag != t.outbounds[j].tag)
    && (forall i, j :: i in t.endpoints && j in t.outbounds ==> TagOf(t, i) != t.outbounds[j].tag)
  }

  predicate IdsBelowNext(t: Tables) {
    && t.nextEndpoint > 0 && t.nextOutbound > 0
    && (forall i :: i in t.endpoints ==> 0 < i < t.nextEndpoint)
    && (forall i :: i in t.outbounds ==> 0 < i < t.nextOutbound)
  }

  /** The table holds the rules derived from the stored endpoints and nothing else. */
  ghost predicate Exact(t: Tables) {
    && (forall k :: k in t.managed ==> t.managed[k].key == k && Derived(t, t.managed[k]))
    && (forall i, r :: i in t.endpoints && Derives(t.endpoints[i].endpoint, r) ==>
        r.key in t.managed && t.managed[r.key] == r)
  }

  ghost predicate Derived(t: Tables, r: ManagedRule) {
    exists i :: i in t.endpoints && Derives(t.endpoints[i].endpoint, r)
  }

  /** The stored endpoints determine the table. */
  lemma ExactDetermines(t: Tables, u: Tables)
    requires Exact(t) && Exact(u) && t.endpoints == u.endpoints
    ensures t.managed == u.managed
  {
    forall k
      ensures k in t.managed <==> k in u.managed
      ensures k in t.managed ==> t.managed[k] == u.managed[k]
    {
      if k in t.managed {
        assert Derived(t, t.managed[k]);
      }
      if k in u.managed {
        assert Derived(u, u.managed[k]);
      }
    }
  }

  lemma DerivedTag(e: Endpoint, r: ManagedRule)
    requires Derives(e, r)
    ensures r.endpointTag == e.tag
  {
  }

  // ---------------------------------------------------------------- the table operations

  /** `DELETE FROM outbounds WHERE tag = tag` */
  function Dropped(outbounds: map<nat, Outbound>, tag: string): map<nat, Outbound> {
    map j | j in outbounds && outbounds[j].tag != tag :: outbounds[j]
  }

  /** `DELETE FROM managed_route_rules WHERE endpoint_tag = tag` */
  function WithoutTag(managed: map<string, ManagedRule>, tag: string): map<string, ManagedRule> {
    map k | k in managed && managed[k].endpointTag != tag :: managed[k]
  }

  /** `syncWireGuardManagedRoute` (service/wireguard.go:734-782): drop the rules of the tag, then add the
      endpoint's own one by one, replacing a row that already has the key. */
  method SyncManagedRoute(managed: map<string, ManagedRule>, e: Endpoint) returns (r: map<string, ManagedRule>)
    ensures forall s :: Derives(e, s) ==> s.key in r && r[s.key] == s
    ensures forall k :: k in r ==> (k in WithoutTag(managed, e.tag) && r[k] == managed[k]) || (r[k].key == k && Derives(e, r[k]))
    ensures forall k :: k in WithoutTag(managed, e.tag) ==> k in r
  {
    hide SiteKey, HubKey;
    r := WithoutTag(managed, e.tag);
    if e.kind != "wireguard" {
      return;
    }
    if Forwards(e) {
      var rule := HubRule(e);
      assert Derives(e, rule);
      r := r[rule.key := rule];
    }
    for index := 0 to |e.peers|
      invariant Forwards(e) ==> HubRule(e).key in r && r[HubRule(e).key] == HubRule(e)
      invariant forall i: nat :: i < index && HasSiteRule(e, i) ==> SiteRule(e, i).key in r && r[SiteRule(e, i).key] == SiteRule(e, i)
      invariant forall k :: k in r ==> (k in WithoutTag(managed, e.tag) && r[k] == managed[k]) || (r[k].key == k && Derives(e, r[k]))
      invariant forall k :: k in WithoutTag(managed, e.tag) ==> k in r
    {
      if !HasSiteRule(e, index) {
        continue;
      }
      var rule := SiteRule(e, index);
      assert Derives(e, rule);
      forall i: nat | i < index && HasSiteRule(e, i)
        ensures SiteRule(e, i).key != rule.key
      {
        SiteKeyInjective(e.tag, i, e.tag, index);
      }
      KeysOfTwoKindsDiffer(e.tag, e.tag, index);
      r := r[rule.key := rule];
    }
  }

  predicate EndpointTagFree(t: Tables, id: nat, tag: string) {
    && tag != ""
    && (forall i :: i in t.endpoints && TagOf(t, i) == tag ==> id > 0 && i == id)
    && (forall j :: j in t.outbounds ==> t.outbounds[j].tag != tag)
  }

  predicate OutboundTagFree(t: Tables, id: nat, tag: string) {
    && tag != ""
    && (forall j :: j in t.outbounds && t.outbounds[j].tag == tag ==> id > 0 && j == id)
    && (forall i :: i in t.endpoints ==> TagOf(t, i) != tag)
  }

  /** `ensureEgressTagAvailable` counts the rows in the way, table by table. */
  method EnsureEgressTagAvailable(t: Tables, isEndpoint: bool, id: nat, tag: string) returns (ok: bool)
    ensures ok <==> if isEndpoint then EndpointTagFree(t, id, Trim(tag)) else OutboundTagFree(t, id, Trim(tag))
  {
    hide Trim;
    var wanted := Trim(tag);
    if wanted == "" {
      return false;
    }
    var endpoints := set i | i in t.endpoints && TagOf(t, i) == wanted && !(isEndpoint && id > 0 && i == id);
    var outbounds := set j | j in t.outbounds && t.outbounds[j].tag == wanted && !(!isEndpoint && id > 0 && j == id);
    var count := if isEndpoint then |endpoints| else |outbounds|;
    if count > 0 {
      if isEndpoint {
        var i :| i in endpoints;
      } else {
        var j :| j in outbounds;
      }
      return false;
    }
    count := if isEndpoint then |outbounds| else |endpoints|;
    if count > 0 {
      if isEndpoint {
        var j :| j in outbounds;
      } else {
        var i :| i in endpoints;
      }
      return false;
    }
    assert endpoints == {} && outbounds == {};
    assert forall i :: i in t.endpoints && TagOf(t, i) == wanted && !(isEndpoint && id > 0 && i == id) ==> i in endpoints;
    assert forall j :: j in t.outbounds && t.outbounds[j].tag == wanted && !(!isEndpoint && id > 0 && j == id) ==> j in outbounds;
    ok := true;
  }

  // ---------------------------------------------------------------- what a save of an endpoint does to the rules

  /** The row `id` of `t` is `row`, whose rules were synchronised into `managed` after those of `dropped`
      (the tag the row is known to have had) were deleted. */
  ghost predicate Synced(t: Tables, row: Row, dropped: Option<string>, managed: map<string, ManagedRule>) {
    var e := row.endpoint;
    var kept := WithoutTag(if dropped.Some? then WithoutTag(t.managed, dropped.value) else t.managed, e.tag);
    && (forall s :: Derives(e, s) ==> s.key in managed && managed[s.key] == s)
    && (forall k :: k in managed ==> (k in kept && managed[k] == t.managed[k]) || (managed[k].key == k && Derives(e, managed[k])))
    && (forall k :: k in kept ==> k in managed)
  }

  /** The save overwrites a row without knowing it: rules of the old tag stay behind. */
  ghost predicate Overwrites(t: Tables, act: Act, id: nat, row: Row) {
    act == New && id in t.endpoints && TagOf(t, id) != row.endpoint.tag &&
    exists r :: Derives(t.endpoints[id].endpoint, r)
  }

  /** After a save the managed-route table is exact unless the save was such an overwrite. */
  lemma SavedRulesExact(t: Tables, act: Act, id: nat, row: Row, dropped: Option<string>, u: Tables)
    requires TagsUnique(t) && Exact(t)
    requires EndpointTagFree(t, id, row.endpoint.tag)
    requires u.endpoints == t.endpoints[id := row]
    requires act == Edit ==> id in t.endpoints
    requires dropped == if act == Edit && TagOf(t, id) != row.endpoint.tag then Some(TagOf(t, id)) else None
    requires Synced(t, row, dropped, u.managed)
    ensures Exact(u) <==> !Overwrites(t, act, id, row)
  {
    hide Derives;
    var e := row.endpoint;
    if !Overwrites(t, act, id, row) {
      forall k | k in u.managed
        ensures u.managed[k].key == k && Derived(u, u.managed[k])
      {
        if !Derives(e, u.managed[k]) {
          OldRuleStays(t, act, id, row, dropped, u, k);
        } else {
          DerivedKeyIsOwn(t, row, dropped, u, k);
          assert u.endpoints[id] == row;
        }
      }
      forall i, r | i in u.endpoints && Derives(u.endpoints[i].endpoint, r)
        ensures r.key in u.managed && u.managed[r.key] == r
      {
        if i != id {
          OtherRuleKept(t, id, row, dropped, u, i, r);
        }
      }
    } else {
      var r :| Derives(t.endpoints[id].endpoint, r);
      StaleRuleStays(t, id, row, u, r);
    }
  }

  lemma OldRuleStays(t: Tables, act: Act, id: nat, row: Row, dropped: Option<string>, u: Tables, k: string)
    requires TagsUnique(t) && Exact(t) && u.endpoints == t.endpoints[id := row]
    requires act == Edit ==> id in t.endpoints
    requires dropped == if act == Edit && TagOf(t, id) != row.endpoint.tag then Some(TagOf(t, id)) else None
    requires Synced(t, row, dropped, u.managed) && !Overwrites(t, act, id, row)
    requires k in u.managed && !Derives(row.endpoint, u.managed[k])
    ensures u.managed[k].key == k && Derived(u, u.managed[k])
  {
    hide Derives;
    var r := t.managed[k];
    assert Derived(t, r);
    var i :| i in t.endpoints && Derives(t.endpoints[i].endpoint, r);
    DerivedTag(t.endpoints[i].endpoint, r);
    assert i != id ==> u.endpoints[i] == t.endpoints[i];
  }

  lemma DerivedKeyIsOwn(t: Tables, row: Row, dropped: Option<string>, u: Tables, k: string)
    requires Exact(t) && Synced(t, row, dropped, u.managed)
    requires k in u.managed
    ensures u.managed[k].key == k
  {
    hide Derives;
  }

  lemma OtherRuleKept(t: Tables, id: nat, row: Row, dropped: Option<string>, u: Tables, i: nat, r: ManagedRule)
    requires TagsUnique(t) && Exact(t) && EndpointTagFree(t, id, row.endpoint.tag)
    requires dropped.Some? ==> id in t.endpoints && dropped.value == TagOf(t, id)
    requires Synced(t, row, dropped, u.managed)
    requires i in t.endpoints && i != id && Derives(t.endpoints[i].endpoint, r)
    ensures r.key in u.managed && u.managed[r.key] == r
  {
    DerivedTag(t.endpoints[i].endpoint, r);
    assert TagOf(t, i) != row.endpoint.tag;
    assert t.managed[r.key] == r;
    if Derives(row.endpoint, u.managed[r.key]) && u.managed[r.key].key == r.key {
      KeyTellsRule(t.endpoints[i].endpoint, row.endpoint, r, u.managed[r.key]);
    }
  }

  lemma StaleRuleStays(t: Tables, id: nat, row: Row, u: Tables, r: ManagedRule)
    requires TagsUnique(t) && Exact(t) && u.endpoints == t.endpoints[id := row]
    requires id in t.endpoints && TagOf(t, id) != row.endpoint.tag
    requires Synced(t, row, None, u.managed)
    requires Derives(t.endpoints[id].endpoint, r)
    ensures !Exact(u)
  {
    hide Derives;
    DerivedTag(t.endpoints[id].endpoint, r);
    assert r.key in u.managed;
    var s := u.managed[r.key];
    assert s.key == r.key;
    forall i | i in u.endpoints
      ensures !Derives(u.endpoints[i].endpoint, s)
    {
      assert u.endpoints[i].endpoint.tag != TagOf(t, id);
      if Derives(u.endpoints[i].endpoint, s) {
        KeyTellsRule(t.endpoints[id].endpoint, u.endpoints[i].endpoint, r, s);
      }
    }
  }

  /** A forwarding endpoint "old" overwritten, as new, by an endpoint "new" that forwards nothing: the rule of
      "old" stays although no endpoint derives it. */
  lemma RuleLeftBehind(e: Endpoint)
    requires e.kind == "wireguard" && e.tag == "old" && e.peers == [] && Forwards(e)
    ensures var t := Tables(map[1 := Row(e, [])], map[], map[HubKey("old") := HubRule(e)], 2, 1);
      var row := Row(e.(tag := "new", hubForwarding := Some(false)), []);
      var u := t.(endpoints := map[1 := row]);
      && TagsUnique(t) && IdsBelowNext(t) && Exact(t) && EndpointTagFree(t, 1, "new") && Synced(t, row, None, u.managed)
      && !Exact(u)
  {
    var t := Tables(map[1 := Row(e, [])], map[], map[HubKey("old") := HubRule(e)], 2, 1);
    var row := Row(e.(tag := "new", hubForwarding := Some(false)), []);
    var u := t.(endpoints := map[1 := row]);
    assert Derives(t.endpoints[1].endpoint, HubRule(e));
    assert Derived(t, HubRule(e));
    assert forall r :: !Derives(row.endpoint, r);
    assert !Derived(u, u.managed[HubKey("old")]);
  }

  /** A free tag keeps the namespace free of duplicates. */
  lemma SavedTagsUnique(t: Tables, id: nat, row: Row, u: Tables)
    requires TagsUnique(t) && EndpointTagFree(t, id, row.endpoint.tag)
    requires u.endpoints == t.endpoints[id := row] && u.outbounds == t.outbounds
    ensures TagsUnique(u)
  {
  }

  /** Deleting a tag takes its endpoint and exactly that endpoint's rules. */
  lemma DeletedRulesExact(t: Tables, tag: string, u: Tables)
    requires TagsUnique(t) && Exact(t)
    requires u.endpoints == map i | i in t.endpoints && TagOf(t, i) != tag :: t.endpoints[i]
    requires u.managed == WithoutTag(t.managed, tag)
    ensures Exact(u)
  {
    hide Derives;
    forall k | k in u.managed
      ensures Derived(u, u.managed[k])
    {
      assert Derived(t, t.managed[k]);
      var i :| i in t.endpoints && Derives(t.endpoints[i].endpoint, t.managed[k]);
      DerivedTag(t.endpoints[i].endpoint, t.managed[k]);
      assert i in u.endpoints;
    }
    forall i, r | i in u.endpoints && Derives(u.endpoints[i].endpoint, r)
      ensures r.key in u.managed && u.managed[r.key] == r
    {
      DerivedTag(t.endpoints[i].endpoint, r);
      assert t.managed[r.key] == r;
    }
  }
}
