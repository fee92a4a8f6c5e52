/**
 Cryptokey routing: what the accepted endpoints look like to the running core. A packet to an address
 goes to the peer whose AllowedIPs hold the address, so no address may be held by two peers.
 */
module WireGuardRouting {
  import opened Prefixes
  import opened Strings
  import opened Wrappers
  import opened WireGuardModel

  // ---------------------------------------------------------------- the runtime projection

  /** One peer of `wireGuardRuntimeOptions`: AllowedIPs and remote endpoint settled, editor fields gone. */
  function RuntimePeer(p: Peer): Peer {
    var isStatic := p.remoteMode == "static" ||
                    (p.remoteMode == "" && p.peerMode in ["static_peer", "site_to_site"]);
    Peer(
      name := "", peerRole := "", peerMode := "", remoteMode := "", staticAddress := "", staticPort := 0,
      address := if !isStatic then "" else if p.staticAddress != "" then p.staticAddress else p.address,
      port := if !isStatic then 0 else if p.staticPort != 0 then p.staticPort else p.port,
      publicKey := p.publicKey, keyMode := "", clientPrivateKey := "", clientPrivateKeySet := None,
      preSharedKey := p.preSharedKey, preSharedKeySet := None, preSharedKeyClear := None,
      assigned4 := "", assigned6 := "", serverAllowed := [],
      allowed := if p.runtimeAllowed != [] then p.runtimeAllowed
                 else if p.serverAllowed != [] then p.serverAllowed else p.allowed,
      runtimeAllowed := [], runtimePreset := "", remoteSites := [], localSites := [], routeInbounds := [],
      include4 := None, include6 := None, clientPreset := "", clientAllowed := [])
  }

  /** The endpoint without its editor fields. */
  function RuntimeRoot(e: Endpoint): Endpoint {
    e.(schema := 0, tunnel4 := "", tunnel6 := "", advertisedHost := "", advertisedPort := 0,
       peerToPeer := None, hubForwarding := None, exportEnabled := None,
       defaultClientAllowed := [], privateKeySet := None)
  }

  /** The endpoint as it is handed to the core. */
  function RuntimeEndpoint(e: Endpoint): Endpoint {
    RuntimeRoot(e).(peers := RuntimePeers(e.peers))
  }

  /** What the core is given of a peer: both keys, the remote address of a static peer, the AllowedIPs, and nothing
      the editor adds. */
  predicate RunsAs(p: Peer, q: Peer) {
    && q.publicKey == p.publicKey && q.preSharedKey == p.preSharedKey
    && (if p.remoteMode == "static" || (p.remoteMode == "" && (p.peerMode == "static_peer" || p.peerMode == "site_to_site"))
        then (q.address == if p.staticAddress != "" then p.staticAddress else p.address) &&
             (q.port == if p.staticPort != 0 then p.staticPort else p.port)
        else q.address == "" && q.port == 0)
    && (p.runtimeAllowed != [] ==> q.allowed == p.runtimeAllowed)
    && (p.runtimeAllowed == [] && p.serverAllowed != [] ==> q.allowed == p.serverAllowed)
    && (p.runtimeAllowed == [] && p.serverAllowed == [] ==> q.allowed == p.allowed)
    && q.clientPrivateKey == "" && q.clientPrivateKeySet == None && q.preSharedKeySet == None && q.preSharedKeyClear == None
    && q.name == q.peerRole == q.peerMode == q.remoteMode == q.keyMode == q.staticAddress == "" && q.staticPort == 0
    && q.assigned4 == q.assigned6 == q.runtimePreset == q.clientPreset == "" && q.include4 == None && q.include6 == None
    && q.serverAllowed == [] && q.runtimeAllowed == [] && q.clientAllowed == []
    && q.remoteSites == [] && q.localSites == [] && q.routeInbounds == []
  }

  /** `wireGuardRuntimeOptions` (database/model/endpoints.go:105-141). */
  method RuntimeOptions(e: Endpoint) returns (r: Endpoint)
    ensures r == RuntimeEndpoint(e)
    ensures r.kind == e.kind && r.tag == e.tag && r.privateKey == e.privateKey && r.address == e.address && r.listenPort == e.listenPort
    ensures r.tunnel4 == r.tunnel6 == r.advertisedHost == "" && r.hubForwarding == r.peerToPeer == r.exportEnabled == r.privateKeySet == None
    ensures |r.peers| == |e.peers|
    ensures forall i :: 0 <= i < |e.peers| ==>
      if e.peers[i].Some? then r.peers[i].Some? && RunsAs(e.peers[i].value, r.peers[i].value) else r.peers[i].None?
  {
    hide RuntimePeer, RunsAs;
    var peers := e.peers;
    for index := 0 to |peers|
      invariant |peers| == |e.peers|
      invariant forall k :: 0 <= k < index ==> peers[k] == RuntimePeers(e.peers)[k]
      invariant forall k :: 0 <= k < index && e.peers[k].Some? ==> RunsAs(e.peers[k].value, peers[k].value)
      invariant forall k :: index <= k < |peers| ==> peers[k] == e.peers[k]
    {
      if peers[index].Some? {
        var p := StripPeer(peers[index].value);
        peers := peers[index := Some(p)];
      }
    }
    assert peers == RuntimePeers(e.peers);
    r := RuntimeRoot(e).(peers := peers);
  }

  method StripPeer(peer: Peer) returns (p: Peer)
    ensures p == RuntimePeer(peer) && RunsAs(peer, p)
  {
    p := peer;
    if p.runtimeAllowed != [] {
      p := p.(allowed := p.runtimeAllowed);
    } else if p.serverAllowed != [] {
      p := p.(allowed := p.serverAllowed);
    }
    if p.remoteMode == "static" || (p.remoteMode == "" && p.peerMode in ["static_peer", "site_to_site"]) {
      if p.staticAddress != "" {
        p := p.(address := p.staticAddress);
      }
      if p.staticPort != 0 {
        p := p.(port := p.staticPort);
      }
    } else {
      p := p.(address := "", port := 0);
    }
    p := p.(name := "", peerMode := "", peerRole := "", keyMode := "", remoteMode := "",
            clientPrivateKey := "", clientPrivateKeySet := None, preSharedKeySet := None, preSharedKeyClear := None,
            assigned4 := "", assigned6 := "", serverAllowed := [], runtimeAllowed := [], runtimePreset := "",
            clientAllowed := [], clientPreset := "", include4 := None, include6 := None,
            staticAddress := "", staticPort := 0, remoteSites := [], localSites := [], routeInbounds := []);
  }

  function RuntimePeers(peers: seq<Option<Peer>>): (r: seq<Option<Peer>>)
    ensures |r| == |peers|
  {
    seq(|peers|, i requires 0 <= i < |peers| =>
      if peers[i].Some? then Some(RuntimePeer(peers[i].value)) else None)
  }

  // ---------------------------------------------------------------- what a running peer owns

  /** The core sends packets for `a` to the peer. */
  ghost predicate Routes(lib: Library, p: Peer, a: Addr) {
    exists x :: x in p.allowed && Parses(lib, x) && Contains(PrefixOf(lib, x), a)
  }

  function Networks(lib: Library, p: Peer): set<Prefix> {
    set x | x in p.allowed :: PrefixOf(lib, x)
  }

  lemma InPrinted(lib: Library, ps: seq<Prefix>, x: string)
    requires Lawful(lib)
    ensures x in Distinct(Printed(lib, ps)) <==> exists q :: q in ps && lib.printPrefix(q) == x
  {
    if x in Printed(lib, ps) {
      var i :| 0 <= i < |ps| && Printed(lib, ps)[i] == x;
      assert ps[i] in ps;
    }
    if q :| q in ps && lib.printPrefix(q) == x {
      var i :| 0 <= i < |ps| && ps[i] == q;
      assert Printed(lib, ps)[i] == x;
    }
  }

  /** The AllowedIPs of a normalised peer are exactly its runtime networks. */
  lemma NormalNetworks(lib: Library, e: Endpoint, p: Peer)
    requires Lawful(lib) && RuntimeOk(lib, p)
    ensures Networks(lib, RuntimePeer(NormalPeer(lib, e, p))) == (set q | q in Runtime(lib, p))
    ensures forall x :: x in RuntimePeer(NormalPeer(lib, e, p)).allowed ==> Parses(lib, x)
    ensures NormalPeer(lib, e, p).runtimeAllowed == RuntimeNormal(lib, p) != []
  {
    hide Runtime, RuntimeTexts, RuntimePreset, Assigned, SlotAfter, ClientNormal, Include4, Include6;
    var ps := Runtime(lib, p);
    assert ps != [] by {
      RuntimeNonEmpty(lib, p);
    }
    assert Printed(lib, ps)[0] in Distinct(Printed(lib, ps));
    forall x: string {
      InPrinted(lib, ps, x);
    }
    forall q | q in ps
      ensures q in Networks(lib, RuntimePeer(NormalPeer(lib, e, p)))
    {
      assert lib.printPrefix(q) in Distinct(Printed(lib, ps));
    }
  }

  lemma RuntimeNonEmpty(lib: Library, p: Peer)
    requires RuntimeOk(lib, p)
    ensures Runtime(lib, p) != []
  {
  }

  lemma RoutesIffRuntime(lib: Library, e: Endpoint, p: Peer, a: Addr)
    requires Lawful(lib) && RuntimeOk(lib, p)
    ensures Routes(lib, RuntimePeer(NormalPeer(lib, e, p)), a) <==>
            exists q :: q in Runtime(lib, p) && Contains(q, a)
  {
    hide Runtime, Contains, NormalPeer, RuntimePeer;
    NormalNetworks(lib, e, p);
    var run := RuntimePeer(NormalPeer(lib, e, p));
    if q :| q in Runtime(lib, p) && Contains(q, a) {
      assert q in Networks(lib, run);
    }
    if x :| x in run.allowed && Parses(lib, x) && Contains(PrefixOf(lib, x), a) {
      assert PrefixOf(lib, x) in Networks(lib, run);
    }
  }

  /** Peer `i` of what `RuntimeOptions` returns for the stored form of the endpoint. */
  function Running(lib: Library, e: Endpoint, i: nat): Peer
    requires i < |e.peers| && e.peers[i].Some?
  {
    RuntimeEndpoint(Normalized(lib, e)).peers[i].value
  }

  lemma RunningIsStripped(lib: Library, e: Endpoint, i: nat)
    requires i < |e.peers| && e.peers[i].Some?
    ensures Running(lib, e, i) == RuntimePeer(NormalPeer(lib, e, e.peers[i].value))
  {
    hide NormalPeer, RuntimePeer;
  }

  /** The core dials a peer exactly if its remote endpoint is static, and then where it was told to. */
  lemma RunningRemote(lib: Library, e: Endpoint, i: nat)
    requires Accepts(lib, e) && i < |e.peers|
    ensures var p, q := e.peers[i].value, Running(lib, e, i);
      && q.publicKey == p.publicKey && q.preSharedKey == p.preSharedKey && q.clientPrivateKey == ""
      && (p.remoteMode == "static" || (p.remoteMode == "" && (p.staticAddress != "" || p.staticPort > 0)) ==>
          q.address == p.staticAddress != "" && q.port == p.staticPort && 1 <= q.port <= 65535)
      && (p.remoteMode == "dynamic" || (p.remoteMode == "" && p.staticAddress == "" && p.staticPort <= 0) ==>
          q.address == "" && q.port == 0)
  {
    hide Assigned, RuntimeNormal, RuntimePreset, Sites, SlotAfter, AssignedOk, SitesOk, RuntimeOk, ClientOk, KeysOk, PairOk, RootOk;
    hide Role, KeyMode, ClientNormal, Include4, Include6, Running, ModeOfRole;
    RunningIsStripped(lib, e, i);
  }

  /** Without a list of its own the full tunnel routes every address. */
  lemma FullTunnelRoutesAll(lib: Library, p: Peer, a: Addr)
    requires Lawful(lib) && RuntimePreset(lib, p) == "full_tunnel" && p.runtimeAllowed == []
    requires ValidAddr(a)
    ensures exists q :: q in Runtime(lib, p) && Contains(q, a)
  {
    hide RuntimePreset, Masked, Contains;
    var i := if a.family == V4 then 0 else 1;
    var q := PrefixOf(lib, ["0.0.0.0/0", "::/0"][i]);
    MaskedSound(q);
    assert Runtime(lib, p)[i] == Masked(q);
    DefaultRouteContainsFamily(Masked(q), a);
  }

  /** The networks of the other presets: the peer's own addresses, its sites as well, or the list that is given. */
  lemma PresetRoutes(lib: Library, p: Peer, q: Prefix)
    requires Lawful(lib)
    ensures RuntimePreset(lib, p) == "peer_addresses" ==> (q in Runtime(lib, p) <==> q in MaskedAll(Assigned(lib, p)))
    ensures RuntimePreset(lib, p) == "remote_networks" ==>
      (q in Runtime(lib, p) <==> q in MaskedAll(Assigned(lib, p)) || q in MaskedAll(Sites(lib, p)))
    ensures RuntimePreset(lib, p) in {"custom", "full_tunnel"} && p.runtimeAllowed != [] ==>
      (q in Runtime(lib, p) <==> exists k :: 0 <= k < |p.runtimeAllowed| && q == Masked(PrefixOf(lib, p.runtimeAllowed[k])))
    ensures RuntimePreset(lib, p) == "custom" && p.runtimeAllowed == [] ==>
      (q in Runtime(lib, p) <==> q in MaskedAll(PrefixesOf(lib, p.serverAllowed)) || q in MaskedAll(PrefixesOf(lib, p.allowed)))
  {
    hide RuntimePreset, Assigned, Masked, Sites;
    ReparsedNormal(lib, Assigned(lib, p));
    ReparsedNormal(lib, Sites(lib, p));
    JoinedPrefixes(lib, Printed(lib, Assigned(lib, p)), Printed(lib, Sites(lib, p)), q);
    JoinedPrefixes(lib, p.serverAllowed, p.allowed, q);
    if RuntimePreset(lib, p) in {"custom", "full_tunnel"} && p.runtimeAllowed != [] {
      assert |Runtime(lib, p)| == |p.runtimeAllowed|;
      assert forall k :: 0 <= k < |p.runtimeAllowed| ==> Runtime(lib, p)[k] == Masked(PrefixOf(lib, p.runtimeAllowed[k]));
    }
  }

  lemma JoinedPrefixes(lib: Library, xs: seq<string>, ys: seq<string>, q: Prefix)
    ensures q in MaskedAll(PrefixesOf(lib, xs + ys)) <==> q in MaskedAll(PrefixesOf(lib, xs)) || q in MaskedAll(PrefixesOf(lib, ys))
  {
    hide Masked, PrefixOf;
    assert MaskedAll(PrefixesOf(lib, xs + ys)) == MaskedAll(PrefixesOf(lib, xs)) + MaskedAll(PrefixesOf(lib, ys));
  }

  // ---------------------------------------------------------------- one address, one peer

  /** In the running configuration of an accepted endpoint no address belongs to two peers. */
  lemma OneAddressOnePeer(lib: Library, e: Endpoint, i: nat, j: nat, a: Addr)
    requires Lawful(lib) && Accepts(lib, e)
    requires i < |e.peers| && j < |e.peers|
    requires Routes(lib, Running(lib, e, i), a) && Routes(lib, Running(lib, e, j), a)
    ensures i == j
  {
    hide NormalPeer, RuntimePeer, Runtime, Contains, Overlaps, Running;
    RunningIsStripped(lib, e, i);
    RunningIsStripped(lib, e, j);
    RoutesIffRuntime(lib, e, e.peers[i].value, a);
    RoutesIffRuntime(lib, e, e.peers[j].value, a);
    var p :| p in Runtime(lib, e.peers[i].value) && Contains(p, a);
    var q :| q in Runtime(lib, e.peers[j].value) && Contains(q, a);
    SharedMeansOverlap(p, q, a);
    if i != j {
      PeersApart(lib, e, i, j);
    }
  }

  lemma PeersApart(lib: Library, e: Endpoint, i: nat, j: nat)
    requires Accepts(lib, e) && i < |e.peers| && j < |e.peers| && i != j
    ensures Apart(Runtime(lib, e.peers[i].value), Runtime(lib, e.peers[j].value))
    ensures Apart(Sites(lib, e.peers[i].value), Sites(lib, e.peers[j].value))
  {
    hide Runtime, Sites, PeerOk, Overlaps;
    var p, q := e.peers[i].value, e.peers[j].value;
    if i < j {
      assert PairOk(lib, p, q);
    } else {
      assert PairOk(lib, q, p);
      ApartSymmetric(Runtime(lib, q), Runtime(lib, p));
      ApartSymmetric(Sites(lib, q), Sites(lib, p));
    }
  }

  lemma ApartSymmetric(ps: seq<Prefix>, qs: seq<Prefix>)
    requires Apart(ps, qs)
    ensures Apart(qs, ps)
  {
    hide Overlaps;
    forall p, q | p in qs && q in ps
      ensures !Overlaps(p, q)
    {
      OverlapsSymmetric(p, q);
    }
  }

  /** A default route leaves nothing of its family to the other peers. */
  lemma DefaultRouteExcludesOthers(lib: Library, e: Endpoint, i: nat, j: nat, p: Prefix, q: Prefix)
    requires Lawful(lib) && Accepts(lib, e)
    requires i < |e.peers| && j < |e.peers| && i != j
    requires p in Networks(lib, Running(lib, e, i)) && p.bits == 0
    requires q in Networks(lib, Running(lib, e, j))
    ensures q.family != p.family
  {
    hide NormalPeer, RuntimePeer, Runtime, Contains, Running;
    if q.family == p.family {
      RunningIsStripped(lib, e, i);
      RunningIsStripped(lib, e, j);
      var a := AddrOf(q);
      DefaultRouteContainsFamily(p, a);
      NormalNetworks(lib, e, e.peers[i].value);
      NormalNetworks(lib, e, e.peers[j].value);
      assert Contains(q, a) by {
        ContainsOwnAddress(q);
      }
      var x :| x in Running(lib, e, i).allowed && PrefixOf(lib, x) == p;
      var y :| y in Running(lib, e, j).allowed && PrefixOf(lib, y) == q;
      OneAddressOnePeer(lib, e, i, j, a);
    }
  }

  lemma ContainsOwnAddress(p: Prefix)
    ensures Contains(p, AddrOf(p))
  {
  }

  // ---------------------------------------------------------------- site gateways

  /** Every address of a gateway's site is routed to that gateway and to nobody else, is in no other
      gateway's sites and in no tunnel network. */
  lemma SiteBelongsToItsGateway(lib: Library, e: Endpoint, g: nat, site: Prefix, a: Addr)
    requires Lawful(lib) && Accepts(lib, e)
    requires g < |e.peers| && Role(e.peers[g].value) == "site_gateway"
    requires site in Sites(lib, e.peers[g].value) && Contains(site, a)
    ensures forall j :: 0 <= j < |e.peers| ==> (Routes(lib, Running(lib, e, j), a) <==> j == g)
    ensures forall j, other :: 0 <= j < |e.peers| && j != g && other in Sites(lib, e.peers[j].value) ==>
              !Contains(other, a)
    ensures forall family :: Tunnel(lib, e, family).Some? ==> !Contains(Tunnel(lib, e, family).value, a)
  {
    hide Accepts, AcceptsUpTo, PeerOk, Contains, Overlaps, Running, Routes, Tunnel, PrefixOf, CoveredBy, OutsideTunnels;
    SiteFacts(lib, e, g, site);
    CoveredAddressRouted(lib, e, g, site, a);
    forall j | 0 <= j < |e.peers| && Routes(lib, Running(lib, e, j), a)
      ensures j == g
    {
      OneAddressOnePeer(lib, e, g, j, a);
    }
    forall j, other | 0 <= j < |e.peers| && j != g && other in Sites(lib, e.peers[j].value)
      ensures !Contains(other, a)
    {
      SitesOfTwoPeersDisjoint(lib, e, g, j, site, other, a);
    }
    TunnelsOutside(lib, e, site, a);
  }

  lemma SiteFacts(lib: Library, e: Endpoint, g: nat, site: Prefix)
    requires Accepts(lib, e) && g < |e.peers| && Role(e.peers[g].value) == "site_gateway"
    requires site in Sites(lib, e.peers[g].value)
    ensures forall i :: 0 <= i < |e.peers| ==> e.peers[i].Some?
    ensures CoveredBy(site, Runtime(lib, e.peers[g].value)) && OutsideTunnels(lib, e, site)
  {
    hide Runtime, CoveredBy, OutsideTunnels, Role, PrefixOf;
    var p := e.peers[g].value;
    assert PeerOk(lib, e, p);
    var k :| 0 <= k < |Sites(lib, p)| && Sites(lib, p)[k] == site;
    assert k < |p.remoteSites| && PrefixOf(lib, p.remoteSites[k]) == site;
  }

  lemma TunnelsOutside(lib: Library, e: Endpoint, site: Prefix, a: Addr)
    requires OutsideTunnels(lib, e, site) && Contains(site, a)
    ensures forall family :: Tunnel(lib, e, family).Some? ==> !Contains(Tunnel(lib, e, family).value, a)
  {
    hide Contains, Overlaps, Tunnel;
    forall family | Tunnel(lib, e, family).Some?
      ensures !Contains(Tunnel(lib, e, family).value, a)
    {
      if Contains(Tunnel(lib, e, family).value, a) {
        assert family == V4 || family == V6;
        SharedMeansOverlap(site, Tunnel(lib, e, family).value, a);
      }
    }
  }

  lemma CoveredAddressRouted(lib: Library, e: Endpoint, g: nat, site: Prefix, a: Addr)
    requires Lawful(lib) && Accepts(lib, e) && g < |e.peers|
    requires CoveredBy(site, Runtime(lib, e.peers[g].value)) && Contains(site, a)
    ensures Routes(lib, Running(lib, e, g), a)
  {
    hide NormalPeer, RuntimePeer, Runtime, Routes, Contains, Running;
    RunningIsStripped(lib, e, g);
    var ps := Runtime(lib, e.peers[g].value);
    var i :| 0 <= i < |ps| && Covers(ps[i], site);
    ContainsOwnAddress(site);
    SharedMeansOverlap(ps[i], site, AddrOf(site));
    OverlapMeansNested(ps[i], site, a);
    assert ps[i] in ps;
    RoutesIffRuntime(lib, e, e.peers[g].value, a);
  }

  lemma SitesOfTwoPeersDisjoint(lib: Library, e: Endpoint, g: nat, j: nat, site: Prefix, other: Prefix, a: Addr)
    requires Accepts(lib, e) && g < |e.peers| && j < |e.peers| && g != j
    requires site in Sites(lib, e.peers[g].value) && other in Sites(lib, e.peers[j].value)
    requires Contains(site, a)
    ensures !Contains(other, a)
  {
    hide Contains, Overlaps, Sites;
    if Contains(other, a) {
      SharedMeansOverlap(site, other, a);
      PeersApart(lib, e, g, j);
    }
  }

  // ---------------------------------------------------------------- normalising once more

  lemma SlotsDiffer(lib: Library, e: Endpoint, p: Peer)
    requires AssignedOk(lib, e, p) && p.assigned4 != "" && p.assigned6 != ""
    ensures PrefixOf(lib, p.assigned4).family != PrefixOf(lib, p.assigned6).family
  {
    var xs := AssignedTexts(lib, p);
    assert xs[0] == p.assigned4 && xs[1] == p.assigned6;
  }

  /** A slot keeps what its own family put there. */
  lemma HostsSurvive(lib: Library, e: Endpoint, f: Endpoint, p: Peer, q: Peer)
    requires Lawful(lib) && AssignedOk(lib, e, p) && AssignedOk(lib, f, q)
    requires Assigned(lib, p) != []
    requires q.assigned4 == SlotAfter(lib, Assigned(lib, p), V4, p.assigned4)
    requires q.assigned6 == SlotAfter(lib, Assigned(lib, p), V6, p.assigned6)
    ensures forall x :: x in Assigned(lib, q) <==> x in Assigned(lib, p)
  {
    hide AssignedTextOk, FirstHost;
    var ps := Assigned(lib, p);
    var texts := AssignedTexts(lib, p);
    assert forall i :: 0 <= i < |ps| ==> ps[i] == PrefixOf(lib, texts[i]);
    if |ps| == 2 {
      assert ps[..1] == [ps[0]];
      var x, y := if ps[0].family == V4 then ps[0] else ps[1], if ps[0].family == V4 then ps[1] else ps[0];
      assert ps[0].family != ps[1].family;
      assert q.assigned4 == lib.printPrefix(x) && q.assigned6 == lib.printPrefix(y);
      assert Assigned(lib, q) == [x, y];
      assert ps == [ps[0], ps[1]];
    } else {
      var x := ps[0];
      assert ps == [x] && ps[..0] == [];
      var other := if x.family == V4 then q.assigned6 else q.assigned4;
      if other == "" {
        assert AssignedTexts(lib, q) == [lib.printPrefix(x)];
        assert Assigned(lib, q) == [x];
      } else {
        // The other slot held the same address: two addresses of one family, which is refused.
        assert texts == [other];
        SlotsDiffer(lib, f, q);
      }
    }
  }

  lemma InferredAreAllowed(lib: Library, xs: seq<string>, family: Family)
    requires Lawful(lib)
    ensures FirstHost(lib, xs, family) != "" ==>
              exists x :: x in xs && Parses(lib, x) && PrefixOf(lib, FirstHost(lib, xs, family)) == PrefixOf(lib, x)
  {
    if xs != [] && !(Parses(lib, xs[0]) && IsHost(PrefixOf(lib, xs[0])) && PrefixOf(lib, xs[0]).family == family) {
      InferredAreAllowed(lib, xs[1..], family);
    }
  }

  lemma InMasked(ps: seq<Prefix>, x: Prefix)
    ensures x in MaskedAll(ps) <==> exists q :: q in ps && Masked(q) == x
  {
    hide Masked;
    if x in MaskedAll(ps) {
      var i :| 0 <= i < |ps| && MaskedAll(ps)[i] == x;
      assert ps[i] in ps;
    }
    if q :| q in ps && Masked(q) == x {
      var i :| 0 <= i < |ps| && ps[i] == q;
      assert MaskedAll(ps)[i] == x;
    }
  }

  lemma MaskedSameMembers(ps: seq<Prefix>, qs: seq<Prefix>)
    requires forall x :: x in ps <==> x in qs
    ensures forall x :: x in MaskedAll(ps) <==> x in MaskedAll(qs)
  {
    hide Masked, MaskedAll;
    forall x: Prefix {
      InMasked(ps, x);
    }
    forall x: Prefix {
      InMasked(qs, x);
    }
  }

  /** Parsing what was printed gives the networks back. */
  lemma ReparsedNormal(lib: Library, ps: seq<Prefix>)
    requires Lawful(lib)
    ensures PrefixesOf(lib, Printed(lib, ps)) == ps
    ensures forall x :: x in PrefixesOf(lib, Distinct(Printed(lib, ps))) <==> x in ps
  {
    var texts := Distinct(Printed(lib, ps));
    forall x: string {
      InPrinted(lib, ps, x);
    }
    forall x | x in PrefixesOf(lib, texts)
      ensures x in ps
    {
      var i :| 0 <= i < |texts| && PrefixOf(lib, texts[i]) == x;
      assert texts[i] in texts;
    }
    forall x | x in ps
      ensures x in PrefixesOf(lib, texts)
    {
      assert lib.printPrefix(x) in texts;
      var i :| 0 <= i < |texts| && texts[i] == lib.printPrefix(x);
      assert PrefixesOf(lib, texts)[i] == x;
    }
  }

  lemma MaskedTwice(ps: seq<Prefix>)
    ensures forall x :: x in MaskedAll(MaskedAll(ps)) <==> x in MaskedAll(ps)
  {
    forall i | 0 <= i < |ps|
      ensures MaskedAll(MaskedAll(ps))[i] == MaskedAll(ps)[i]
    {
      MaskedSound(ps[i]);
    }
    assert MaskedAll(MaskedAll(ps)) == MaskedAll(ps);
  }

  /** Addresses inferred from the networks of the first pass add no network of their own. */
  lemma InferredHostsAreOld(lib: Library, q: Peer, normal: seq<string>)
    requires Lawful(lib)
    requires q.assigned4 == q.assigned6 == "" && q.serverAllowed == q.allowed == normal
    ensures forall x :: x in Assigned(lib, q) ==> x in PrefixesOf(lib, normal)
  {
    InferredAreAllowed(lib, normal + normal, V4);
    InferredAreAllowed(lib, normal + normal, V6);
    forall x | x in Assigned(lib, q)
      ensures x in PrefixesOf(lib, normal)
    {
      var i :| 0 <= i < |AssignedTexts(lib, q)| && Assigned(lib, q)[i] == x;
      var y :| y in normal + normal && PrefixOf(lib, y) == x;
      var k :| 0 <= k < |normal| && normal[k] == y;
      assert PrefixesOf(lib, normal)[k] == x;
    }
  }

  lemma NormalFields(lib: Library, e: Endpoint, p: Peer)
    ensures var q := NormalPeer(lib, e, p);
      && q.assigned4 == SlotAfter(lib, Assigned(lib, p), V4, p.assigned4)
      && q.assigned6 == SlotAfter(lib, Assigned(lib, p), V6, p.assigned6)
      && q.remoteSites == Printed(lib, Sites(lib, p))
      && q.runtimeAllowed == q.serverAllowed == q.allowed == RuntimeNormal(lib, p)
      && q.runtimePreset == RuntimePreset(lib, p)
  {
    hide Assigned, SlotAfter, Sites, RuntimeNormal, RuntimePreset, ClientNormal, Include4, Include6, Role;
  }

  /** The addresses of the second pass: the old ones, or, where there were none, networks of the first pass. */
  lemma HostsOfSecondPass(lib: Library, e: Endpoint, f: Endpoint, p: Peer)
    requires Lawful(lib) && PeerOk(lib, e, p) && PeerOk(lib, f, NormalPeer(lib, e, p))
    ensures var q := NormalPeer(lib, e, p);
      if Assigned(lib, p) != [] then forall x :: x in Assigned(lib, q) <==> x in Assigned(lib, p)
      else forall x :: x in Assigned(lib, q) ==> x in Runtime(lib, p)
  {
    hide NormalPeer, RoleOk, KeysOk, SitesOk, RuntimeOk, ClientOk, AssignedTextOk, Runtime;
    NormalFields(lib, e, p);
    var q := NormalPeer(lib, e, p);
    if Assigned(lib, p) != [] {
      HostsSurvive(lib, e, f, p, q);
    } else {
      assert p.assigned4 == p.assigned6 == "";
      InferredHostsAreOld(lib, q, RuntimeNormal(lib, p));
      ReparsedNormal(lib, Runtime(lib, p));
    }
  }

  lemma HostsAndSites(hosts: seq<Prefix>, hosts': seq<Prefix>, sites: seq<Prefix>)
    requires if hosts != [] then forall x :: x in hosts' <==> x in hosts
             else forall x :: x in hosts' ==> x in MaskedAll(sites)
    ensures forall x :: x in MaskedAll(hosts' + sites) <==> x in MaskedAll(hosts + sites)
  {
    hide Masked, MaskedAll;
    if hosts != [] {
      MaskedSameMembers(hosts' + sites, hosts + sites);
    } else {
      assert hosts + sites == sites;
      forall x: Prefix {
        InMasked(hosts' + sites, x);
      }
      forall x: Prefix {
        InMasked(sites, x);
      }
      forall x: Prefix {
        InMasked(MaskedAll(sites), x);
      }
      MaskedTwice(sites);
    }
  }

  /** Normalising an accepted peer again leaves the set of networks it owns as it was, for every preset
      and even when the second pass infers addresses the first one did not have. */
  lemma RuntimeUnchanged(lib: Library, e: Endpoint, f: Endpoint, p: Peer)
    requires Lawful(lib) && PeerOk(lib, e, p) && PeerOk(lib, f, NormalPeer(lib, e, p))
    ensures forall x :: x in Runtime(lib, NormalPeer(lib, e, p)) <==> x in Runtime(lib, p)
  {
    hide NormalPeer, RoleOk, KeysOk, AssignedOk, SitesOk, ClientOk, Assigned, RuntimeNormal, MaskedAll, PrefixesOf, Role;
    var q := NormalPeer(lib, e, p);
    var hosts, sites := Assigned(lib, p), Sites(lib, p);
    NormalFields(lib, e, p);
    NormalNetworks(lib, e, p);
    HostsOfSecondPass(lib, e, f, p);
    ReparsedNormal(lib, hosts);
    ReparsedNormal(lib, Assigned(lib, q));
    ReparsedNormal(lib, sites);
    match RuntimePreset(lib, p)
    case "peer_addresses" =>
      assert hosts != [] by {
        assert |Printed(lib, hosts)| == |hosts|;
      }
      MaskedSameMembers(hosts, Assigned(lib, q));
    case "remote_networks" =>
      assert Sites(lib, q) == sites;
      PrintedTogether(lib, hosts, sites);
      PrintedTogether(lib, Assigned(lib, q), sites);
      if hosts == [] {
        assert hosts + sites == sites;
      }
      HostsAndSites(hosts, Assigned(lib, q), sites);
    case _ =>
      assert RuntimeTexts(lib, q) == RuntimeNormal(lib, p) by {
        assert q.runtimeAllowed != [];
      }
      NormalIsMasked(lib, p);
  }

  lemma PrintedTogether(lib: Library, ps: seq<Prefix>, qs: seq<Prefix>)
    requires Lawful(lib)
    ensures PrefixesOf(lib, Printed(lib, ps) + Printed(lib, qs)) == ps + qs
  {
  }

  lemma NormalIsMasked(lib: Library, p: Peer)
    requires Lawful(lib)
    ensures forall x :: x in MaskedAll(PrefixesOf(lib, RuntimeNormal(lib, p))) <==> x in Runtime(lib, p)
  {
    hide Masked, RuntimeTexts;
    ReparsedNormal(lib, Runtime(lib, p));
    MaskedSameMembers(PrefixesOf(lib, RuntimeNormal(lib, p)), Runtime(lib, p));
    MaskedTwice(PrefixesOf(lib, RuntimeTexts(lib, p)));
  }

  /** Normalising an accepted endpoint again, whenever it is accepted again, changes no running AllowedIPs. */
  lemma SecondPassKeepsRouting(lib: Library, e: Endpoint, i: nat)
    requires Lawful(lib) && Accepts(lib, e) && Accepts(lib, Normalized(lib, e))
    requires i < |e.peers|
    ensures Networks(lib, Running(lib, Normalized(lib, e), i)) == Networks(lib, Running(lib, e, i))
  {
    hide NormalPeer, RuntimePeer, Runtime, PeerOk, Running;
    var f := Normalized(lib, e);
    RunningIsStripped(lib, e, i);
    RunningIsStripped(lib, f, i);
    var p := e.peers[i].value;
    assert PeerOk(lib, e, p) && PeerOk(lib, f, f.peers[i].value);
    AcceptedRuntime(lib, e, p);
    AcceptedRuntime(lib, f, f.peers[i].value);
    NormalNetworks(lib, e, p);
    NormalNetworks(lib, f, f.peers[i].value);
    RuntimeUnchanged(lib, e, f, p);
  }

  lemma AcceptedRuntime(lib: Library, e: Endpoint, p: Peer)
    requires PeerOk(lib, e, p)
    ensures RuntimeOk(lib, p)
  {
  }
}
