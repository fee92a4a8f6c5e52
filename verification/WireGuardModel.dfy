/**
 The decoded form of a WireGuard endpoint and, field by field, what the normaliser has to find and to
 leave behind. Text fields hold what `stringValue` reads (trimmed, absent as the empty text), lists what
 `stringsValue` reads (trimmed, without empty items), flags what `boolValue` reads (None when absent).

 The method that does the work, with its growing lists of prefixes already handed out, is in
 WireGuardNormalizer; here the same conditions are stated without any order of evaluation.
 */
module WireGuardModel {
  import opened Prefixes
  import opened Strings
  import opened Wrappers

  /** The calls into `net/netip` and `wgtypes`. */
  datatype Library = Library(
    parsePrefix: string -> Option<Prefix>,
    printPrefix: Prefix -> string,
    validKey: string -> bool,
    publicKeyOf: string -> string)

  /** `ParsePrefix` reads back what `Prefix.String` writes. */
  ghost predicate Lawful(lib: Library) {
    && (forall p: Prefix :: lib.printPrefix(p) != "" && lib.parsePrefix(lib.printPrefix(p)) == Some(p))
    && lib.parsePrefix("0.0.0.0/0") == Some(Prefix(V4, 0, 0))
    && lib.parsePrefix("::/0") == Some(Prefix(V6, 0, 0))
  }

  datatype Peer = Peer(
    name: string, peerRole: string, peerMode: string,
    remoteMode: string, staticAddress: string, staticPort: int, address: string, port: int,
    publicKey: string, keyMode: string,
    clientPrivateKey: string, clientPrivateKeySet: Option<bool>,
    preSharedKey: string, preSharedKeySet: Option<bool>, preSharedKeyClear: Option<bool>,
    assigned4: string, assigned6: string,
    serverAllowed: seq<string>, allowed: seq<string>, runtimeAllowed: seq<string>, runtimePreset: string,
    remoteSites: seq<string>, localSites: seq<string>, routeInbounds: seq<string>,
    include4: Option<bool>, include6: Option<bool>, clientPreset: string, clientAllowed: seq<string>)

  /** `peers` holds None where the JSON list holds something other than an object. */
  datatype Endpoint = Endpoint(
    kind: string, schema: int, tag: string, privateKey: string, privateKeySet: Option<bool>,
    tunnel4: string, tunnel6: string, address: seq<string>, listenPort: int,
    exportEnabled: Option<bool>, advertisedHost: string, advertisedPort: int,
    hubForwarding: Option<bool>, peerToPeer: Option<bool>, defaultClientAllowed: seq<string>,
    peers: seq<Option<Peer>>)

  const SCHEMA_VERSION := 4
  const REDACTED := "[redacted]"

  function BoolValue(value: Option<bool>, fallback: bool): bool {
    if value.Some? then value.value else fallback
  }

  function IsRedacted(secret: string): bool {
    Trim(secret) == REDACTED || '\U{2022}' in Trim(secret)
  }

  // ---------------------------------------------------------------- texts and prefixes

  predicate Parses(lib: Library, s: string) {
    lib.parsePrefix(s).Some?
  }

  /** The prefix a text denotes; a text that does not parse is refused before this is used. */
  function PrefixOf(lib: Library, s: string): Prefix {
    if Parses(lib, s) then lib.parsePrefix(s).value else Prefix(V4, 0, 0)
  }

  function PrefixesOf(lib: Library, xs: seq<string>): (r: seq<Prefix>)
    ensures |r| == |xs|
  {
    seq(|xs|, i requires 0 <= i < |xs| => PrefixOf(lib, xs[i]))
  }

  function Printed(lib: Library, ps: seq<Prefix>): (r: seq<string>)
    ensures |r| == |ps|
  {
    seq(|ps|, i requires 0 <= i < |ps| => lib.printPrefix(ps[i]))
  }

  function MaskedAll(ps: seq<Prefix>): (r: seq<Prefix>)
    ensures |r| == |ps|
  {
    seq(|ps|, i requires 0 <= i < |ps| => Masked(ps[i]))
  }

  /** Two lists of prefixes with no address in common. */
  predicate Apart(ps: seq<Prefix>, qs: seq<Prefix>) {
    forall p, q :: p in ps && q in qs ==> !Overlaps(p, q)
  }

  predicate SelfApart(ps: seq<Prefix>) {
    forall i, j :: 0 <= i < j < |ps| ==> !Overlaps(ps[i], ps[j])
  }

  /** The first occurrence of every text, in order. */
  function Distinct(xs: seq<string>): (r: seq<string>)
    ensures forall x :: x in r <==> x in xs
  {
    if xs == [] then []
    else
      var last := xs[|xs| - 1];
      var r := Distinct(xs[..|xs| - 1]);
      assert xs == xs[..|xs| - 1] + [last];
      if last in r then r else r + [last]
  }

  // ---------------------------------------------------------------- roles and keys

  function RoleFromMode(p: Peer): string {
    if p.peerMode == "static_peer" then "fixed_node"
    else if p.peerMode == "site_to_site" then
      if p.remoteSites != [] || p.localSites != [] then "site_gateway" else "fixed_node"
    else "client"
  }

  function Role(p: Peer): string {
    var role := if p.peerRole == "" then RoleFromMode(p) else p.peerRole;
    match role
    case "roaming_client" => "client"
    case "static_peer" => "fixed_node"
    case "site_to_site" => "site_gateway"
    case _ => role
  }

  function RemoteMode(p: Peer): string {
    if p.remoteMode != "" then p.remoteMode
    else if p.staticAddress != "" || p.staticPort > 0 then "static" else "dynamic"
  }

  function ModeOfRole(role: string): string {
    match role
    case "client" => "roaming_client"
    case "fixed_node" => "static_peer"
    case "site_gateway" => "site_to_site"
    case _ => ""
  }

  function KeyMode(p: Peer): string {
    if p.keyMode != "" then p.keyMode
    else if p.clientPrivateKey != "" || BoolValue(p.clientPrivateKeySet, false) || Role(p) == "client"
    then "generated_client" else "existing_peer"
  }

  predicate RoleOk(p: Peer) {
    && Role(p) in ["client", "fixed_node", "site_gateway"]
    && RemoteMode(p) in ["dynamic", "static"]
    && (RemoteMode(p) == "static" ==> p.staticAddress != "" && p.staticPort >= 1)
    && p.staticPort <= 65535
  }

  predicate KeysOk(lib: Library, e: Endpoint, p: Peer) {
    && p.publicKey != "" && lib.validKey(p.publicKey) && p.publicKey != lib.publicKeyOf(e.privateKey)
    && (p.preSharedKey == "" || IsRedacted(p.preSharedKey) || lib.validKey(p.preSharedKey))
    && KeyMode(p) in ["generated_client", "existing_peer"]
  }

  // ---------------------------------------------------------------- tunnel networks and endpoint addresses

  predicate TunnelOk(lib: Library, text: string, family: Family) {
    text == "" ||
    (&& Parses(lib, text)
     && var p := PrefixOf(lib, text);
        && p.family == family && p == Masked(p)
        && (if family == V6 then 48 <= p.bits <= 124 && !LinkLocal(p) else 8 <= p.bits <= 30))
  }

  /** fe80::/10 */
  predicate LinkLocal(p: Prefix) {
    p.family == V6 && ShiftRight(p.addr, 118) == 0x3FA
  }

  function Tunnel(lib: Library, e: Endpoint, family: Family): Option<Prefix> {
    var text := if family == V4 then e.tunnel4 else e.tunnel6;
    if text == "" then None else Some(PrefixOf(lib, text))
  }

  predicate InTunnel(lib: Library, e: Endpoint, p: Prefix) {
    var t := Tunnel(lib, e, p.family);
    t.Some? ==> Contains(t.value, AddrOf(p))
  }

  predicate AddressOk(lib: Library, e: Endpoint, text: string) {
    Parses(lib, text) && IsHost(PrefixOf(lib, text)) && InTunnel(lib, e, PrefixOf(lib, text))
  }

  function EndpointAddrs(lib: Library, xs: seq<string>): set<Addr> {
    set x | x in xs :: AddrOf(PrefixOf(lib, x))
  }

  predicate AddressesOk(lib: Library, e: Endpoint, xs: seq<string>) {
    && (forall i :: 0 <= i < |xs| ==> AddressOk(lib, e, xs[i]))
    && (forall i, j :: 0 <= i < j < |xs| ==> AddrOf(PrefixOf(lib, xs[i])) != AddrOf(PrefixOf(lib, xs[j])))
  }

  function ExportEnabled(e: Endpoint): bool {
    BoolValue(e.exportEnabled, e.advertisedHost != "" || e.advertisedPort > 0)
  }

  predicate RootOk(lib: Library, e: Endpoint) {
    && e.tag != "" && e.privateKey != "" && lib.validKey(e.privateKey)
    && TunnelOk(lib, e.tunnel4, V4) && TunnelOk(lib, e.tunnel6, V6)
    && e.address != [] && AddressesOk(lib, e, e.address)
    && 0 <= e.listenPort <= 65535
    && (ExportEnabled(e) ==> e.advertisedHost != "" && 1 <= e.advertisedPort <= 65535)
    && e.peers != []
  }

  // ---------------------------------------------------------------- assigned tunnel addresses

  /** The last loop of the inference: the first host address of the family, printed. */
  function FirstHost(lib: Library, xs: seq<string>, family: Family): string {
    if xs == [] then ""
    else if Parses(lib, xs[0]) && IsHost(PrefixOf(lib, xs[0])) && PrefixOf(lib, xs[0]).family == family
    then lib.printPrefix(PrefixOf(lib, xs[0]))
    else FirstHost(lib, xs[1..], family)
  }

  /** The two address slots, read or, when both are blank, inferred from the allowed addresses. */
  function Slots(lib: Library, p: Peer): (string, string) {
    if p.assigned4 == "" && p.assigned6 == "" then
      (FirstHost(lib, p.serverAllowed + p.allowed, V4), FirstHost(lib, p.serverAllowed + p.allowed, V6))
    else (p.assigned4, p.assigned6)
  }

  function AssignedTexts(lib: Library, p: Peer): seq<string> {
    var (s4, s6) := Slots(lib, p);
    (if s4 == "" then [] else [s4]) + (if s6 == "" then [] else [s6])
  }

  function Assigned(lib: Library, p: Peer): seq<Prefix> {
    PrefixesOf(lib, AssignedTexts(lib, p))
  }

  predicate AssignedTextOk(lib: Library, e: Endpoint, text: string) {
    AddressOk(lib, e, text) && AddrOf(PrefixOf(lib, text)) !in EndpointAddrs(lib, e.address)
  }

  predicate AssignedOk(lib: Library, e: Endpoint, p: Peer) {
    var xs := AssignedTexts(lib, p);
    && (KeyMode(p) == "generated_client" ==> xs != [])
    && (forall i :: 0 <= i < |xs| ==> AssignedTextOk(lib, e, xs[i]))
    && (forall i, j :: 0 <= i < j < |xs| ==> PrefixOf(lib, xs[i]).family != PrefixOf(lib, xs[j]).family)
  }

  /** What the slot of a family holds afterwards. */
  function SlotAfter(lib: Library, ps: seq<Prefix>, family: Family, before: string): string {
    if ps == [] then before
    else if ps[|ps| - 1].family == family then lib.printPrefix(ps[|ps| - 1])
    else SlotAfter(lib, ps[..|ps| - 1], family, before)
  }

  // ---------------------------------------------------------------- site networks

  predicate SiteOk(lib: Library, text: string) {
    Parses(lib, text) && PrefixOf(lib, text) == Masked(PrefixOf(lib, text)) && PrefixOf(lib, text).bits != 0
  }

  predicate OutsideTunnels(lib: Library, e: Endpoint, p: Prefix) {
    && (Tunnel(lib, e, V4).Some? ==> !Overlaps(p, Tunnel(lib, e, V4).value))
    && (Tunnel(lib, e, V6).Some? ==> !Overlaps(p, Tunnel(lib, e, V6).value))
  }

  function Sites(lib: Library, p: Peer): seq<Prefix> {
    PrefixesOf(lib, p.remoteSites)
  }

  predicate SitesOk(lib: Library, e: Endpoint, p: Peer) {
    && (Role(p) == "site_gateway" <==> p.remoteSites != [])
    && (forall i :: 0 <= i < |p.remoteSites| ==>
        SiteOk(lib, p.remoteSites[i]) && OutsideTunnels(lib, e, PrefixOf(lib, p.remoteSites[i])))
    && SelfApart(Sites(lib, p))
    && (forall i :: 0 <= i < |p.localSites| ==> SiteOk(lib, p.localSites[i]))
  }

  // ---------------------------------------------------------------- runtime AllowedIPs

  function TrimAll(xs: seq<string>): (r: seq<string>)
    ensures |r| == |xs|
  {
    seq(|xs|, i requires 0 <= i < |xs| => Trim(xs[i]))
  }

  /** Despite the source's name for it, a comparison of the texts with their multiplicities. */
  predicate SameTexts(xs: seq<string>, ys: seq<string>) {
    multiset(TrimAll(xs)) == multiset(TrimAll(ys))
  }

  function Candidates(p: Peer): seq<string> {
    if p.runtimeAllowed != [] then p.runtimeAllowed else p.serverAllowed + p.allowed
  }

  function RuntimePreset(lib: Library, p: Peer): string {
    var xs := Candidates(p);
    if p.runtimePreset != "" then p.runtimePreset
    else if xs == [] || SameTexts(xs, Printed(lib, Assigned(lib, p))) then "peer_addresses"
    else if Role(p) == "site_gateway" && p.remoteSites != [] then "remote_networks"
    else if exists i :: 0 <= i < |xs| && Parses(lib, xs[i]) && PrefixOf(lib, xs[i]).bits == 0 then "full_tunnel"
    else "custom"
  }

  function RuntimeTexts(lib: Library, p: Peer): seq<string> {
    match RuntimePreset(lib, p)
    case "peer_addresses" => Printed(lib, Assigned(lib, p))
    case "remote_networks" => Printed(lib, Assigned(lib, p)) + Printed(lib, Sites(lib, p))
    case "full_tunnel" => if p.runtimeAllowed != [] then p.runtimeAllowed else ["0.0.0.0/0", "::/0"]
    case _ => Candidates(p)
  }

  /** The networks the running peer owns. */
  function Runtime(lib: Library, p: Peer): seq<Prefix> {
    MaskedAll(PrefixesOf(lib, RuntimeTexts(lib, p)))
  }

  function RuntimeNormal(lib: Library, p: Peer): seq<string> {
    Distinct(Printed(lib, Runtime(lib, p)))
  }

  predicate Covers(outer: Prefix, inner: Prefix) {
    outer.bits <= inner.bits && Contains(outer, AddrOf(inner))
  }

  predicate CoveredBy(inner: Prefix, ps: seq<Prefix>) {
    exists i :: 0 <= i < |ps| && Covers(ps[i], inner)
  }

  predicate RuntimeOk(lib: Library, p: Peer) {
    var preset := RuntimePreset(lib, p);
    var xs := RuntimeTexts(lib, p);
    && preset in ["peer_addresses", "remote_networks", "full_tunnel", "custom"]
    && (preset == "peer_addresses" ==> Role(p) != "site_gateway")
    && xs != []
    && (forall i :: 0 <= i < |xs| ==> Parses(lib, xs[i]))
    && (forall i :: 0 <= i < |xs| ==> PrefixOf(lib, xs[i]).bits == 0 ==> preset == "full_tunnel")
    && (Role(p) == "site_gateway" ==>
        forall i :: 0 <= i < |p.remoteSites| ==> CoveredBy(Sites(lib, p)[i], Runtime(lib, p)))
  }

  // ---------------------------------------------------------------- the exported client configuration

  function Include4(lib: Library, p: Peer): bool {
    BoolValue(p.include4, SlotAfter(lib, Assigned(lib, p), V4, p.assigned4) != "")
  }

  function Include6(lib: Library, p: Peer): bool {
    BoolValue(p.include6, SlotAfter(lib, Assigned(lib, p), V6, p.assigned6) != "")
  }

  function ClientPreset(p: Peer): string {
    if p.clientPreset == "" then "virtual_network" else p.clientPreset
  }

  function ClientBase(lib: Library, e: Endpoint, p: Peer): seq<string> {
    if p.clientAllowed != [] then p.clientAllowed
    else if e.defaultClientAllowed != [] then e.defaultClientAllowed
    else
      (if Include4(lib, p) && Tunnel(lib, e, V4).Some? then [lib.printPrefix(Tunnel(lib, e, V4).value)] else []) +
      (if Include6(lib, p) && Tunnel(lib, e, V6).Some? then [lib.printPrefix(Tunnel(lib, e, V6).value)] else [])
  }

  function ClientTexts(lib: Library, e: Endpoint, p: Peer): seq<string> {
    ClientBase(lib, e, p) + if Role(p) == "site_gateway" then Printed(lib, PrefixesOf(lib, p.localSites)) else []
  }

  predicate ClientTextOk(lib: Library, p: Peer, text: string) {
    && Parses(lib, text)
    && var q := PrefixOf(lib, text);
       && (q.bits == 0 ==> ClientPreset(p) == "full_tunnel")
       && (ClientPreset(p) == "single_peer" ==>
           IsHost(q) && AddrOf(q) !in EndpointAddrs(lib, AssignedTexts(lib, p)))
  }

  /** The texts of the chosen families, printed. */
  function Chosen(lib: Library, xs: seq<string>, include4: bool, include6: bool): seq<string> {
    if xs == [] then []
    else
      var q := PrefixOf(lib, xs[|xs| - 1]);
      Chosen(lib, xs[..|xs| - 1], include4, include6) +
      if (if q.family == V4 then include4 else include6) then [lib.printPrefix(q)] else []
  }

  function ClientNormal(lib: Library, e: Endpoint, p: Peer): seq<string> {
    Chosen(lib, ClientTexts(lib, e, p), Include4(lib, p), Include6(lib, p))
  }

  predicate ClientOk(lib: Library, e: Endpoint, p: Peer) {
    && (Include4(lib, p) || Include6(lib, p))
    && ClientPreset(p) in ["virtual_network", "single_peer", "custom", "full_tunnel"]
    && ClientBase(lib, e, p) != []
    && (forall i :: 0 <= i < |ClientTexts(lib, e, p)| ==> ClientTextOk(lib, p, ClientTexts(lib, e, p)[i]))
    && ClientNormal(lib, e, p) != []
  }

  // ---------------------------------------------------------------- acceptance and normal form

  predicate PeerOk(lib: Library, e: Endpoint, p: Peer) {
    && RoleOk(p) && KeysOk(lib, e, p) && AssignedOk(lib, e, p) && SitesOk(lib, e, p) && RuntimeOk(lib, p)
    && (KeyMode(p) == "generated_client" ==> ClientOk(lib, e, p))
  }

  /** What two peers of one endpoint must not share. */
  predicate PairOk(lib: Library, p: Peer, q: Peer) {
    && p.publicKey != q.publicKey
    && Apart(Assigned(lib, p), Assigned(lib, q))
    && Apart(Sites(lib, p), Sites(lib, q))
    && Apart(Runtime(lib, p), Runtime(lib, q))
  }

  /** The first `n` peers could be accepted together. */
  predicate AcceptsUpTo(lib: Library, e: Endpoint, n: nat)
    requires n <= |e.peers|
  {
    && (forall i :: 0 <= i < n ==> e.peers[i].Some? && PeerOk(lib, e, e.peers[i].value))
    && (forall i, j :: 0 <= i < j < n ==> PairOk(lib, e.peers[i].value, e.peers[j].value))
  }

  predicate Accepts(lib: Library, e: Endpoint) {
    RootOk(lib, e) && AcceptsUpTo(lib, e, |e.peers|)
  }

  /** Only these endpoints are looked at; every other one is stored as it came. */
  predicate Strict(e: Endpoint) {
    e.kind == "wireguard" && e.schema >= 2
  }

  function NormalPeer(lib: Library, e: Endpoint, p: Peer): Peer {
    var hosts := Assigned(lib, p);
    var runtime := RuntimeNormal(lib, p);
    var gateway := Role(p) == "site_gateway";
    var q := p.(
      peerRole := Role(p), peerMode := ModeOfRole(Role(p)), remoteMode := RemoteMode(p),
      address := if RemoteMode(p) == "dynamic" then "" else p.address,
      port := if RemoteMode(p) == "dynamic" then 0 else p.port,
      keyMode := KeyMode(p),
      clientPrivateKey := if KeyMode(p) == "existing_peer" then "" else p.clientPrivateKey,
      clientPrivateKeySet := if KeyMode(p) == "existing_peer" then None else p.clientPrivateKeySet,
      assigned4 := SlotAfter(lib, hosts, V4, p.assigned4),
      assigned6 := SlotAfter(lib, hosts, V6, p.assigned6),
      remoteSites := Printed(lib, Sites(lib, p)),
      localSites := if gateway then Printed(lib, PrefixesOf(lib, p.localSites)) else [],
      routeInbounds := if !gateway then [] else if p.routeInbounds != [] then p.routeInbounds else [e.tag],
      runtimePreset := RuntimePreset(lib, p),
      runtimeAllowed := runtime, serverAllowed := runtime, allowed := runtime);
    if KeyMode(p) != "generated_client" then q
    else q.(include4 := Some(Include4(lib, p)), include6 := Some(Include6(lib, p)),
            clientPreset := ClientPreset(p), clientAllowed := ClientNormal(lib, e, p))
  }

  function NormalPeers(lib: Library, e: Endpoint, n: nat): (r: seq<Option<Peer>>)
    requires n <= |e.peers|
    ensures |r| == |e.peers|
  {
    seq(|e.peers|, i requires 0 <= i < |e.peers| =>
      if i < n && e.peers[i].Some? then Some(NormalPeer(lib, e, e.peers[i].value)) else e.peers[i])
  }

  function Normalized(lib: Library, e: Endpoint): Endpoint {
    var hub := if e.hubForwarding.Some? then e.hubForwarding.value else BoolValue(e.peerToPeer, false);
    e.(schema := SCHEMA_VERSION, exportEnabled := Some(ExportEnabled(e)),
       hubForwarding := Some(hub), peerToPeer := Some(hub), peers := NormalPeers(lib, e, |e.peers|))
  }

  // ---------------------------------------------------------------- what the normal form keeps and settles

  /** Name and keys are those submitted; the mode of the keys decides whether a client key is kept. */
  predicate KeysSettled(p: Peer, q: Peer) {
    && q.name == p.name && q.publicKey == p.publicKey
    && q.preSharedKey == p.preSharedKey && q.preSharedKeySet == p.preSharedKeySet && q.preSharedKeyClear == p.preSharedKeyClear
    && (if p.keyMode != "" then q.keyMode == p.keyMode
        else q.keyMode == if p.clientPrivateKey != "" || p.clientPrivateKeySet == Some(true) || q.peerRole == "client"
                          then "generated_client" else "existing_peer")
    && (q.keyMode == "generated_client" || q.keyMode == "existing_peer")
    && (q.keyMode == "generated_client" ==> q.clientPrivateKey == p.clientPrivateKey && q.clientPrivateKeySet == p.clientPrivateKeySet)
    && (q.keyMode == "existing_peer" ==> q.clientPrivateKey == "" && q.clientPrivateKeySet == None)
  }

  /** The role, under its new name or read from the older mode, and the mode that belongs to it. */
  predicate RoleSettled(p: Peer, q: Peer) {
    && (p.peerRole == "client" || p.peerRole == "roaming_client" ==> q.peerRole == "client")
    && (p.peerRole == "fixed_node" || p.peerRole == "static_peer" ==> q.peerRole == "fixed_node")
    && (p.peerRole == "site_gateway" || p.peerRole == "site_to_site" ==> q.peerRole == "site_gateway")
    && (p.peerRole == "" ==>
        q.peerRole == if p.peerMode == "static_peer" then "fixed_node"
                      else if p.peerMode != "site_to_site" then "client"
                      else if p.remoteSites != [] || p.localSites != [] then "site_gateway" else "fixed_node")
    && ((q.peerRole == "client" && q.peerMode == "roaming_client") || (q.peerRole == "fixed_node" && q.peerMode == "static_peer") ||
        (q.peerRole == "site_gateway" && q.peerMode == "site_to_site"))
  }

  /** The remote endpoint: a dynamic peer has no address, a static one what was submitted. */
  predicate RemoteSettled(p: Peer, q: Peer) {
    && q.staticAddress == p.staticAddress && q.staticPort == p.staticPort
    && (if p.remoteMode != "" then q.remoteMode == p.remoteMode
        else q.remoteMode == if p.staticAddress != "" || p.staticPort > 0 then "static" else "dynamic")
    && (q.remoteMode == "dynamic" || q.remoteMode == "static")
    && (q.remoteMode == "dynamic" ==> q.address == "" && q.port == 0)
    && (q.remoteMode == "static" ==> q.address == p.address && q.port == p.port && q.staticAddress != "" && 1 <= q.staticPort <= 65535)
  }

  /** Only a gateway has sites; traffic to them comes in where it was told to, or else at the endpoint. */
  predicate SitesSettled(lib: Library, e: Endpoint, p: Peer, q: Peer) {
    && |q.remoteSites| == |p.remoteSites|
    && (forall k :: 0 <= k < |q.remoteSites| ==> q.remoteSites[k] == lib.printPrefix(PrefixOf(lib, p.remoteSites[k])))
    && (q.peerRole == "site_gateway" <==> q.remoteSites != [])
    && (q.peerRole != "site_gateway" ==> q.localSites == [] && q.routeInbounds == [])
    && (q.peerRole == "site_gateway" ==>
        && q.routeInbounds == (if p.routeInbounds != [] then p.routeInbounds else [e.tag])
        && |q.localSites| == |p.localSites|
        && forall k :: 0 <= k < |q.localSites| ==> q.localSites[k] == lib.printPrefix(PrefixOf(lib, p.localSites[k])))
  }

  /** The client routes as texts before the families are chosen: the peer's own, or else the endpoint's, or else its
      tunnel networks; a gateway has its local sites as well. */
  ghost predicate RouteText(lib: Library, e: Endpoint, p: Peer, q: Peer, text: string) {
    || (if p.clientAllowed != [] then text in p.clientAllowed
        else if e.defaultClientAllowed != [] then text in e.defaultClientAllowed
        else (q.include4 == Some(true) && e.tunnel4 != "" && text == lib.printPrefix(PrefixOf(lib, e.tunnel4))) ||
             (q.include6 == Some(true) && e.tunnel6 != "" && text == lib.printPrefix(PrefixOf(lib, e.tunnel6))))
    || (q.peerRole == "site_gateway" && text in q.localSites)
  }

  /** The settings of the exported client configuration. */
  ghost predicate ExportSettled(lib: Library, e: Endpoint, p: Peer, q: Peer) {
    && (q.keyMode == "existing_peer" ==>
        q.include4 == p.include4 && q.include6 == p.include6 && q.clientPreset == p.clientPreset && q.clientAllowed == p.clientAllowed)
    && (q.keyMode == "generated_client" ==>
        && q.include4 == Some(if p.include4.Some? then p.include4.value else q.assigned4 != "")
        && q.include6 == Some(if p.include6.Some? then p.include6.value else q.assigned6 != "")
        && q.clientPreset == (if p.clientPreset == "" then "virtual_network" else p.clientPreset)
        && forall x :: x in q.clientAllowed <==> exists text :: RouteText(lib, e, p, q, text) && ChosenAs(lib, q, text, x))
  }

  /** The text is of a family that is included, and is printed as `x`. */
  predicate ChosenAs(lib: Library, q: Peer, text: string, x: string) {
    x == lib.printPrefix(PrefixOf(lib, text)) && (if PrefixOf(lib, text).family == V4 then q.include4 else q.include6) == Some(true)
  }

  ghost predicate PeerSettled(lib: Library, e: Endpoint, p: Peer, q: Peer) {
    KeysSettled(p, q) && RoleSettled(p, q) && RemoteSettled(p, q) && SitesSettled(lib, e, p, q) && ExportSettled(lib, e, p, q)
  }

  /** The fields of the endpoint itself. */
  predicate RootSettled(e: Endpoint, n: Endpoint) {
    && n == e.(schema := 4, exportEnabled := n.exportEnabled, hubForwarding := n.hubForwarding, peerToPeer := n.peerToPeer, peers := n.peers)
    && n.exportEnabled == Some(if e.exportEnabled.Some? then e.exportEnabled.value else e.advertisedHost != "" || e.advertisedPort > 0)
    && n.hubForwarding == Some(if e.hubForwarding.Some? then e.hubForwarding.value else e.peerToPeer == Some(true))
    && n.peerToPeer == n.hubForwarding && |n.peers| == |e.peers|
  }

  lemma NormalKeys(lib: Library, e: Endpoint, p: Peer)
    requires KeysOk(lib, e, p)
    ensures KeysSettled(p, NormalPeer(lib, e, p))
  {
    hide Assigned, RuntimeNormal, RuntimePreset, Sites, SlotAfter, Role, ClientNormal, Include4, Include6, ModeOfRole;
  }

  lemma NormalRole(lib: Library, e: Endpoint, p: Peer)
    requires RoleOk(p)
    ensures RoleSettled(p, NormalPeer(lib, e, p)) && RemoteSettled(p, NormalPeer(lib, e, p))
  {
    hide Assigned, RuntimeNormal, RuntimePreset, Sites, SlotAfter, ClientNormal, Include4, Include6, KeyMode;
  }

  lemma NormalSites(lib: Library, e: Endpoint, p: Peer)
    requires SitesOk(lib, e, p)
    ensures SitesSettled(lib, e, p, NormalPeer(lib, e, p))
  {
    hide Assigned, RuntimeNormal, RuntimePreset, SlotAfter, ClientNormal, Include4, Include6, KeyMode, Role, ModeOfRole, PrefixOf;
  }

  lemma {:induction false} ChosenExactly(lib: Library, xs: seq<string>, include4: bool, include6: bool, x: string)
    ensures x in Chosen(lib, xs, include4, include6) <==>
      exists k :: 0 <= k < |xs| && x == lib.printPrefix(PrefixOf(lib, xs[k])) &&
        (if PrefixOf(lib, xs[k]).family == V4 then include4 else include6)
  {
    hide PrefixOf;
    if xs != [] {
      ChosenExactly(lib, xs[..|xs| - 1], include4, include6, x);
    }
  }

  lemma RouteTexts(lib: Library, e: Endpoint, p: Peer, text: string)
    requires KeyMode(p) == "generated_client"
    ensures RouteText(lib, e, p, NormalPeer(lib, e, p), text) <==> text in ClientTexts(lib, e, p)
  {
    hide Assigned, RuntimeNormal, RuntimePreset, SlotAfter, ClientNormal, Include4, Include6, KeyMode, Role, ModeOfRole, PrefixOf, Printed;
  }

  lemma NormalExport(lib: Library, e: Endpoint, p: Peer)
    requires KeysOk(lib, e, p)
    ensures ExportSettled(lib, e, p, NormalPeer(lib, e, p))
  {
    hide RuntimeNormal, RuntimePreset, Sites, Role, ModeOfRole, RouteText, Chosen, ClientTexts, PrefixOf, Assigned, SlotAfter;
    var q := NormalPeer(lib, e, p);
    if KeyMode(p) == "generated_client" {
      forall x
        ensures x in q.clientAllowed <==> exists text :: RouteText(lib, e, p, q, text) && ChosenAs(lib, q, text, x)
      {
        var xs := ClientTexts(lib, e, p);
        ChosenExactly(lib, xs, Include4(lib, p), Include6(lib, p), x);
        forall text {
          RouteTexts(lib, e, p, text);
        }
        assert forall k :: 0 <= k < |xs| ==> xs[k] in xs;
      }
    }
  }

  lemma NormalSettled(lib: Library, e: Endpoint, p: Peer)
    requires PeerOk(lib, e, p)
    ensures PeerSettled(lib, e, p, NormalPeer(lib, e, p))
  {
    hide NormalPeer, KeysSettled, RoleSettled, RemoteSettled, SitesSettled, ExportSettled, RoleOk, KeysOk, SitesOk;
    NormalKeys(lib, e, p);
    NormalRole(lib, e, p);
    NormalSites(lib, e, p);
    NormalExport(lib, e, p);
  }

  /** The role of a normal peer can be read from its mode alone. */
  lemma RoleReadsBack(lib: Library, e: Endpoint, p: Peer)
    requires PeerOk(lib, e, p)
    ensures var q := NormalPeer(lib, e, p); Role(q.(peerRole := "")) == q.peerRole && q.peerRole != ""
  {
    hide NormalPeer, KeysSettled, RemoteSettled, ExportSettled, KeysOk, PrefixOf;
    NormalSettled(lib, e, p);
  }
}
