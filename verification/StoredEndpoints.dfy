/**
 What is true of every stored WireGuard endpoint at every point of a run (service/endpoints.go:75-156): it is in normal
 form, so what the running core routes and what the managed rules say can be read off the stored row.
 */
module StoredEndpoints {
  import opened EgressStore
  import opened EgressTables
  import opened ManagedRoutes
  import opened Prefixes
  import opened Strings
  import opened WireGuardModel
  import opened WireGuardRouting
  import WireGuardNormalizer
  import WireGuardSecrets
  import opened Wrappers

  // ---------------------------------------------------------------- normal form over runs

  /** `n` is what the normaliser makes of the accepted endpoint `e`, under its own tag. */
  predicate NormalFormOf(lib: Library, n: Endpoint, e: Endpoint) {
    Strict(e) && Accepts(lib, e) && n == Normalized(lib, e).(tag := n.tag)
  }

  /** Every stored strict endpoint is in normal form. */
  ghost predicate AllNormal(lib: Library, t: Tables) {
    forall id :: id in t.endpoints && Strict(t.endpoints[id].endpoint) ==> exists e :: NormalFormOf(lib, t.endpoints[id].endpoint, e)
  }

  lemma PerformedKeepsNormal(lib: Library, t: Tables, request: Request, u: Tables)
    requires AllNormal(lib, t) && Possible(lib, t, request) && Performed(lib, t, request, u)
    ensures AllNormal(lib, u)
  {
    hide Accepts, WireGuardSecrets.Merged, Trim, Synced, EndpointTagFree, OutboundTagFree;
    if request.SaveEndpoint? {
      var merged := Submitted(t, request.act, request.id, request.payload);
      var key := if request.id == 0 then t.nextEndpoint else request.id;
      var n := u.endpoints[key].endpoint;
      if Strict(n) {
        assert NormalFormOf(lib, n, merged);
      }
      forall id | id in u.endpoints && Strict(u.endpoints[id].endpoint)
        ensures exists e :: NormalFormOf(lib, u.endpoints[id].endpoint, e)
      {
      }
    }
  }

  /** Over every run of saves and deletes every stored strict endpoint is in normal form. */
  lemma {:induction false} RunKeepsNormal(lib: Library, reliable: bool, trace: seq<Tables>, requests: seq<Request>, done: seq<bool>, k: nat)
    requires IsRun(lib, reliable, trace, requests, done) && k <= |requests| && AllNormal(lib, trace[0])
    ensures AllNormal(lib, trace[k])
  {
    hide AllNormal, Possible, Performed;
    if k > 0 {
      RunKeepsNormal(lib, reliable, trace, requests, done, k - 1);
      assert StepOf(lib, reliable, trace[k - 1], requests[k - 1], done[k - 1], trace[k - 1 + 1]);
      if done[k - 1] {
        PerformedKeepsNormal(lib, trace[k - 1], requests[k - 1], trace[k]);
      }
    }
  }

  // ---------------------------------------------------------------- what a stored endpoint routes

  /** Peer `i` of the stored endpoint sends packets for `a`. */
  ghost predicate RoutesTo(lib: Library, n: Endpoint, i: nat, a: Addr) {
    i < |n.peers| && RuntimeEndpoint(n).peers[i].Some? && Routes(lib, RuntimeEndpoint(n).peers[i].value, a)
  }

  lemma RoutesAsRunning(lib: Library, n: Endpoint, e: Endpoint, i: nat, a: Addr)
    requires NormalFormOf(lib, n, e) && i < |e.peers|
    ensures |n.peers| == |e.peers| && (RoutesTo(lib, n, i, a) <==> Routes(lib, Running(lib, e, i), a))
  {
    hide NormalPeer, RuntimePeer, PeerOk, PairOk, RootOk, Routes;
  }

  /** No address is routed to two peers of a stored endpoint. */
  lemma StoredOneAddressOnePeer(lib: Library, t: Tables, id: nat, i: nat, j: nat, a: Addr)
    requires Lawful(lib) && AllNormal(lib, t) && id in t.endpoints && Strict(t.endpoints[id].endpoint)
    requires RoutesTo(lib, t.endpoints[id].endpoint, i, a) && RoutesTo(lib, t.endpoints[id].endpoint, j, a)
    ensures i == j
  {
    hide RoutesTo, Accepts, Normalized, Running, Routes;
    var n := t.endpoints[id].endpoint;
    var e :| NormalFormOf(lib, n, e);
    PeersInOrder(lib, n, e, i, a);
    PeersInOrder(lib, n, e, j, a);
    RoutesAsRunning(lib, n, e, i, a);
    RoutesAsRunning(lib, n, e, j, a);
    OneAddressOnePeer(lib, e, i, j, a);
  }

  lemma PeersInOrder(lib: Library, n: Endpoint, e: Endpoint, i: nat, a: Addr)
    requires NormalFormOf(lib, n, e)
    ensures |n.peers| == |e.peers| && (RoutesTo(lib, n, i, a) ==> i < |e.peers|)
  {
    hide NormalPeer, RuntimePeer, Accepts;
  }

  /** An address of a stored site is routed to its gateway and to no other peer, and the managed rules hold the
      gateway's own rule with the CIDR it lies in. */
  lemma StoredSiteRouted(lib: Library, t: Tables, id: nat, g: nat, x: string, a: Addr)
    requires Lawful(lib) && AllNormal(lib, t) && Exact(t) && id in t.endpoints && Strict(t.endpoints[id].endpoint)
    requires HasSiteRule(t.endpoints[id].endpoint, g)
    requires x in t.endpoints[id].endpoint.peers[g].value.remoteSites && Contains(PrefixOf(lib, x), a)
    ensures var n := t.endpoints[id].endpoint;
      && (forall j :: RoutesTo(lib, n, j, a) <==> j == g)
      && SiteKey(n.tag, g) in t.managed
      && var rule := t.managed[SiteKey(n.tag, g)];
      && rule.endpointTag == n.tag && x in RouteCidrs(rule) && Parses(lib, x)
      && RouteCidrs(rule) == n.peers[g].value.remoteSites
      && RouteInbounds(rule) == (if n.peers[g].value.routeInbounds != [] then n.peers[g].value.routeInbounds else [n.tag]) != []
  {
    hide RoutesTo, Accepts, Normalized, Running, Routes, Contains, SiteKey, Derives, RouteCidrs, RouteInbounds, HasSiteRule;
    var n := t.endpoints[id].endpoint;
    var e :| NormalFormOf(lib, n, e);
    var site := NormalGateway(lib, n, e, g, x);
    SiteBelongsToItsGateway(lib, e, g, site, a);
    forall j: nat
      ensures RoutesTo(lib, n, j, a) <==> j == g
    {
      PeersInOrder(lib, n, e, j, a);
      if j < |e.peers| {
        RoutesAsRunning(lib, n, e, j, a);
      }
    }
    SiteRuleDerived(n, g, x);
    assert t.managed[SiteRule(n, g).key] == SiteRule(n, g);
  }

  lemma SiteRuleDerived(n: Endpoint, g: nat, x: string)
    requires n.kind == "wireguard" && HasSiteRule(n, g) && x in n.peers[g].value.remoteSites
    ensures var rule := SiteRule(n, g);
      && Derives(n, rule) && rule.key == SiteKey(n.tag, g) && rule.endpointTag == n.tag && x in RouteCidrs(rule)
      && RouteCidrs(rule) == n.peers[g].value.remoteSites
      && RouteInbounds(rule) == (if n.peers[g].value.routeInbounds != [] then n.peers[g].value.routeInbounds else [n.tag]) != []
  {
    hide SiteKey;
  }

  lemma NormalGateway(lib: Library, n: Endpoint, e: Endpoint, g: nat, x: string) returns (site: Prefix)
    requires Lawful(lib) && NormalFormOf(lib, n, e) && HasSiteRule(n, g) && x in n.peers[g].value.remoteSites
    ensures g < |e.peers| && e.peers[g].Some? && Role(e.peers[g].value) == "site_gateway"
    ensures site in Sites(lib, e.peers[g].value) && Parses(lib, x) && site == PrefixOf(lib, x)
  {
    hide Assigned, RuntimeNormal, RuntimePreset, SlotAfter, RuntimeOk, ClientOk, ClientNormal, KeysOk, AssignedOk, Role, PeerOk, RootOk, PairOk;
    var p := e.peers[g].value;
    var k :| 0 <= k < |Sites(lib, p)| && Printed(lib, Sites(lib, p))[k] == x;
    site := Sites(lib, p)[k];
  }

  // ---------------------------------------------------------------- the row of a saved endpoint

  /** The row a save leaves under its identifier: the submitted endpoint under its trimmed tag, in an edit with the
      stored secrets merged in; a strict WireGuard endpoint settled field by field. */
  lemma EndpointStored(lib: Library, t: Tables, act: Act, id: nat, payload: EgressTables.Row, u: Tables)
    requires Possible(lib, t, SaveEndpoint(act, id, payload)) && Performed(lib, t, SaveEndpoint(act, id, payload), u)
    ensures var key := if id == 0 then t.nextEndpoint else id;
      var merged := Submitted(t, act, id, payload);
      && key in u.endpoints && u.endpoints == t.endpoints[key := u.endpoints[key]] && u.outbounds == t.outbounds
      && var row := u.endpoints[key];
      && row.endpoint.kind == payload.endpoint.kind && row.endpoint.tag == Trim(payload.endpoint.tag)
      && (payload.endpoint.kind != "warp" ==> row.ext == payload.ext)
      && (payload.endpoint.kind != "warp" && !Strict(merged) ==> row.endpoint == merged.(tag := Trim(payload.endpoint.tag)))
      && (payload.endpoint.kind != "wireguard" || act == New ==> merged == payload.endpoint)
      && (Strict(merged) ==>
          && RootSettled(merged.(tag := row.endpoint.tag), row.endpoint)
          && forall i :: 0 <= i < |merged.peers| ==>
              merged.peers[i].Some? && row.endpoint.peers[i].Some? &&
              PeerSettled(lib, merged, merged.peers[i].value, row.endpoint.peers[i].value))
  {
    hide Trim, Accepts, PeerSettled, WireGuardSecrets.Merged, NormalPeer, Synced, EndpointTagFree;
    var merged := Submitted(t, act, id, payload);
    if Strict(merged) {
      AcceptedSettled(lib, merged);
    }
  }

  lemma AcceptedSettled(lib: Library, e: Endpoint)
    requires Accepts(lib, e)
    ensures RootSettled(e, Normalized(lib, e))
    ensures forall i :: 0 <= i < |e.peers| ==>
      && e.peers[i].Some? && Normalized(lib, e).peers[i].Some?
      && PeerSettled(lib, e, e.peers[i].value, Normalized(lib, e).peers[i].value)
  {
    hide PeerOk, PairOk, RootOk, NormalPeer, PeerSettled, Normalized, RootSettled;
    WireGuardNormalizer.SettledByNormal(lib, e);
  }

  // ---------------------------------------------------------------- forwarding between peers

  /** The managed rules hold a hub rule for a stored WireGuard endpoint exactly if it forwards between its peers; the
      rule routes what comes in at the endpoint to the tunnel networks that are set. */
  lemma StoredHubRouted(t: Tables, id: nat)
    requires Exact(t) && TagsUnique(t) && id in t.endpoints && t.endpoints[id].endpoint.kind == "wireguard"
    ensures var n := t.endpoints[id].endpoint;
      && (HubKey(n.tag) in t.managed <==> n.hubForwarding == Some(true) || (n.hubForwarding == None && n.peerToPeer == Some(true)))
      && (HubKey(n.tag) in t.managed && n.tag != "" ==>
          var rule := t.managed[HubKey(n.tag)];
          && rule.endpointTag == n.tag && RouteInbounds(rule) == [n.tag]
          && forall x :: x in RouteCidrs(rule) <==> x != "" && (x == n.tunnel4 || x == n.tunnel6))
  {
    hide SiteKey, HubKey;
    var n := t.endpoints[id].endpoint;
    if Forwards(n) {
      assert Derives(n, HubRule(n));
    }
    if HubKey(n.tag) in t.managed {
      var rule := t.managed[HubKey(n.tag)];
      assert Derived(t, rule);
      var i :| i in t.endpoints && Derives(t.endpoints[i].endpoint, rule);
      HubRuleOnly(t.endpoints[i].endpoint, n.tag, rule);
      assert i == id;
    }
  }

  lemma HubRuleOnly(e: Endpoint, tag: string, rule: ManagedRule)
    requires Derives(e, rule) && rule.key == HubKey(tag)
    ensures e.tag == tag && Forwards(e) && rule == HubRule(e)
  {
    if j: nat :| HasSiteRule(e, j) && rule == SiteRule(e, j) {
      KeysOfTwoKindsDiffer(tag, e.tag, j);
    } else {
      assert HubKey(e.tag)[|HUB_KEY|..] == e.tag && HubKey(tag)[|HUB_KEY|..] == tag;
    }
  }
}
