/**
 The transport and TLS settings of a VLESS or Trojan link: printed into the query of the link
 (util/genLink.go:634-730) and read back (util/linkToJson.go:494-581). In each record `rest` stands for the JSON keys
 neither side knows.
 */
module Links {
  import opened QueryStrings
  import opened Strings
  import opened Wrappers

  datatype Host = NoHost | HostList(hosts: seq<string>) | HostText(host: string)

  datatype Headers = Headers(host: Option<string>, rest: string)

  datatype Transport = Transport(kind: Option<string>, host: Host, path: Option<string>,
                                 headers: Option<Headers>, serviceName: Option<string>, rest: string)

  datatype Reality = Reality(enabled: Option<bool>, publicKey: Option<string>, shortId: Option<string>, rest: string)

  datatype Utls = Utls(enabled: Option<bool>, fingerprint: Option<string>)

  datatype Tls = Tls(enabled: Option<bool>, reality: Option<Reality>, insecure: Option<bool>, disableSni: Option<bool>,
                     utls: Option<Utls>, serverName: Option<string>, alpn: Option<seq<string>>,
                     ech: Option<string>, rest: string)

  const NO_TRANSPORT := Transport(None, NoHost, None, None, None, "")
  const NO_TLS := Tls(None, None, None, None, None, None, None, None, "")

  function IsTrue(flag: Option<bool>): bool {
    flag == Some(true)
  }

  // ---------------------------------------------------------------- printing

  /** A parameter that is printed when it has a value. */
  datatype Block = Block(key: string, value: Option<string>)

  function Print(blocks: seq<Block>): seq<Param> {
    if blocks == [] then []
    else
      var last := blocks[|blocks| - 1];
      Print(blocks[..|blocks| - 1]) + if last.value.Some? then [Param(last.key, last.value.value)] else []
  }

  function ListText(xs: seq<string>): Option<string> {
    if Kept(xs) != [] then Some(Join(Kept(xs), ',')) else None
  }

  function FlagText(flag: Option<bool>): Option<string> {
    if IsTrue(flag) then Some("1") else None
  }

  function TransportType(t: Transport): string {
    if t.kind.Some? then t.kind.value else "tcp"
  }

  function TransportBlocks(t: Transport): seq<Block> {
    var kind := TransportType(t);
    [Block("type", Some(kind))] +
    match kind
    case "http" => [Block("host", if t.host.HostList? then ListText(t.host.hosts) else None), Block("path", t.path)]
    case "ws" => [Block("path", t.path), Block("host", if t.headers.Some? then t.headers.value.host else None)]
    case "grpc" => [Block("serviceName", t.serviceName)]
    case "httpupgrade" => [Block("host", if t.host.HostText? then Some(t.host.host) else None), Block("path", t.path)]
    case _ => []
  }

  function UsesReality(tls: Tls): bool {
    tls.reality.Some? && IsTrue(tls.reality.value.enabled)
  }

  function TlsBlocks(tls: Tls, insecureKey: string): seq<Block> {
    (if UsesReality(tls) then
       [Block("security", Some("reality")), Block("pbk", tls.reality.value.publicKey), Block("sid", tls.reality.value.shortId)]
     else
       [Block("security", Some("tls")), Block(insecureKey, FlagText(tls.insecure)), Block("disable_sni", FlagText(tls.disableSni))]) +
    [Block("fp", if tls.utls.Some? then tls.utls.value.fingerprint else None),
     Block("sni", tls.serverName),
     Block("alpn", if tls.alpn.Some? then ListText(tls.alpn.value) else None)]
  }

  lemma PrintOneMore(blocks: seq<Block>, b: Block)
    ensures Print(blocks + [b]) == Print(blocks) + if b.value.Some? then [Param(b.key, b.value.value)] else []
  {
    assert (blocks + [b])[..|blocks|] == blocks;
  }

  lemma {:induction false} PrintAppend(blocks: seq<Block>, more: seq<Block>)
    ensures Print(blocks + more) == Print(blocks) + Print(more)
  {
    if more == [] {
      assert blocks + more == blocks;
    } else {
      var last := |more| - 1;
      PrintAppend(blocks, more[..last]);
      assert (blocks + more)[..|blocks| + last] == blocks + more[..last];
    }
  }

  method GetTransportParams(t: Transport) returns (params: seq<Param>)
    ensures params == Print(TransportBlocks(t))
  {
    hide Print, ListText;
    PrintNothing();
    ghost var blocks: seq<Block>;
    params, blocks := AppendOptional([], [], "type", Some(TransportType(t)));
    match TransportType(t) {
      case "http" =>
        params, blocks := AppendOptional(params, blocks, "host", if t.host.HostList? then ListText(t.host.hosts) else None);
        params, blocks := AppendOptional(params, blocks, "path", t.path);
      case "ws" =>
        params, blocks := AppendOptional(params, blocks, "path", t.path);
        params, blocks := AppendOptional(params, blocks, "host", if t.headers.Some? then t.headers.value.host else None);
      case "grpc" =>
        params, blocks := AppendOptional(params, blocks, "serviceName", t.serviceName);
      case "httpupgrade" =>
        params, blocks := AppendOptional(params, blocks, "host", if t.host.HostText? then Some(t.host.host) else None);
        params, blocks := AppendOptional(params, blocks, "path", t.path);
      case _ =>
    }
    assert blocks == TransportBlocks(t);
  }

  lemma PrintNothing()
    ensures Print([]) == []
  {
  }

  method AppendOptional(start: seq<Param>, ghost blocks: seq<Block>, key: string, value: Option<string>)
    returns (params: seq<Param>, ghost more: seq<Block>)
    requires start == Print(blocks)
    ensures more == blocks + [Block(key, value)] && params == Print(more)
    ensures params == if value.Some? then start + [Param(key, value.value)] else start
  {
    PrintOneMore(blocks, Block(key, value));
    params, more := start, blocks + [Block(key, value)];
    if value.Some? {
      params := params + [Param(key, value.value)];
    }
  }

  method GetTlsParams(start: seq<Param>, tls: Tls, insecureKey: string) returns (params: seq<Param>)
    ensures params == start + Print(TlsBlocks(tls, insecureKey))
  {
    hide Print, ListText, FlagText;
    ghost var blocks: seq<Block>;
    params, blocks := SecurityParams(tls, insecureKey);
    params, blocks := AppendOptional(params, blocks, "fp", if tls.utls.Some? then tls.utls.value.fingerprint else None);
    params, blocks := AppendOptional(params, blocks, "sni", tls.serverName);
    params, blocks := AppendOptional(params, blocks, "alpn", if tls.alpn.Some? then ListText(tls.alpn.value) else None);
    assert blocks == TlsBlocks(tls, insecureKey);
    params := start + params;
  }

  method SecurityParams(tls: Tls, insecureKey: string) returns (params: seq<Param>, ghost blocks: seq<Block>)
    ensures params == Print(blocks) && blocks == TlsBlocks(tls, insecureKey)[..3]
  {
    hide Print, ListText, FlagText;
    PrintNothing();
    if UsesReality(tls) {
      params, blocks := AppendOptional([], [], "security", Some("reality"));
      params, blocks := AppendOptional(params, blocks, "pbk", tls.reality.value.publicKey);
      params, blocks := AppendOptional(params, blocks, "sid", tls.reality.value.shortId);
    } else {
      params, blocks := AppendOptional([], [], "security", Some("tls"));
      params, blocks := AppendOptional(params, blocks, insecureKey, FlagText(tls.insecure));
      params, blocks := AppendOptional(params, blocks, "disable_sni", FlagText(tls.disableSni));
    }
    assert blocks == TlsBlocks(tls, insecureKey)[..3];
  }

  /** A VLESS link prints its flow as well; a Trojan link has none. */
  function LinkBlocks(t: Transport, tls: Tls, flow: Option<string>): seq<Block> {
    TransportBlocks(t) + if IsTrue(tls.enabled) then TlsBlocks(tls, "allowInsecure") + [Block("flow", flow)] else []
  }

  function LinkText(t: Transport, tls: Tls, flow: Option<string>): string {
    QueryText(Print(LinkBlocks(t, tls, flow)))
  }

  method LinkParams(t: Transport, tls: Tls, flow: Option<string>) returns (params: seq<Param>)
    ensures params == Print(LinkBlocks(t, tls, flow))
  {
    hide Print, TlsBlocks, TransportBlocks;
    params := GetTransportParams(t);
    if IsTrue(tls.enabled) {
      params := GetTlsParams(params, tls, "allowInsecure");
      ghost var blocks := TransportBlocks(t) + TlsBlocks(tls, "allowInsecure");
      PrintAppend(TransportBlocks(t), TlsBlocks(tls, "allowInsecure"));
      params, blocks := AppendOptional(params, blocks, "flow", flow);
      assert blocks == LinkBlocks(t, tls, flow);
    } else {
      assert LinkBlocks(t, tls, flow) == TransportBlocks(t);
    }
  }

  // ---------------------------------------------------------------- parsing

  /** `url.Values.Get`: the first value of the key, empty if there is none. */
  function Get(q: seq<Param>, key: string): string {
    if q == [] then "" else if q[0].key == key then q[0].value else Get(q[1..], key)
  }

  function ListValue(text: string): seq<string> {
    Split(text, ',')
  }

  function Given(text: string): Option<string> {
    if text != "" then Some(text) else None
  }

  function ParseTransport(q: seq<Param>): Transport {
    var host, path := Get(q, "host"), Get(q, "path");
    var hosts := if host != "" then HostList(ListValue(host)) else NoHost;
    var kind := Lower(Get(q, "type"));
    if kind in ["tcp", ""] then
      if Get(q, "headerType") == "http" then NO_TRANSPORT.(kind := Some("http"), host := hosts, path := Some(path)) else NO_TRANSPORT
    else if kind in ["http", "h2"] then NO_TRANSPORT.(kind := Some("http"), host := hosts, path := Some(path))
    else if kind == "ws" then
      NO_TRANSPORT.(kind := Some("ws"), path := Some(path),
                    headers := if host != "" then Some(Headers(Some(host), "")) else None)
    else if kind == "quic" then NO_TRANSPORT.(kind := Some("quic"))
    else if kind == "grpc" then NO_TRANSPORT.(kind := Some("grpc"), serviceName := Some(Get(q, "serviceName")))
    else if kind == "httpupgrade" then NO_TRANSPORT.(kind := Some("httpupgrade"), path := Some(path), host := HostText(host))
    else NO_TRANSPORT
  }

  function Flag(q: seq<Param>, key: string): bool {
    Get(q, key) == "1" || Get(q, key) == "true"
  }

  function ParseTls(q: seq<Param>): Tls {
    var security := Get(q, "security");
    Tls(
      enabled := if security in ["tls", "reality"] then Some(true) else None,
      reality := if security == "reality" then Some(Reality(Some(true), Some(Get(q, "pbk")), Some(Get(q, "sid")), "")) else None,
      insecure := if Flag(q, "insecure") || Flag(q, "allowInsecure") then Some(true) else None,
      disableSni := if Flag(q, "disable_sni") then Some(true) else None,
      utls := if Get(q, "fp") != "" then Some(Utls(Some(true), Some(Get(q, "fp")))) else None,
      serverName := Given(Get(q, "sni")),
      alpn := if Get(q, "alpn") != "" then Some(ListValue(Get(q, "alpn"))) else None,
      ech := Given(Get(q, "ech")),
      rest := "")
  }

  /** `getTls` fills a fresh object. */
  method GetTls(security: string, q: seq<Param>) returns (tls: Tls)
    requires security == Get(q, "security")
    ensures tls == ParseTls(q)
  {
    hide Get, Split;
    tls := NO_TLS;
    if security == "tls" {
      tls := tls.(enabled := Some(true));
    } else if security == "reality" {
      tls := tls.(enabled := Some(true), reality := Some(Reality(Some(true), Some(Get(q, "pbk")), Some(Get(q, "sid")), "")));
    }
    if Get(q, "sni") != "" {
      tls := tls.(serverName := Some(Get(q, "sni")));
    }
    if Get(q, "alpn") != "" {
      tls := tls.(alpn := Some(Split(Get(q, "alpn"), ',')));
    }
    if Flag(q, "insecure") || Flag(q, "allowInsecure") {
      tls := tls.(insecure := Some(true));
    }
    if Get(q, "fp") != "" {
      tls := tls.(utls := Some(Utls(Some(true), Some(Get(q, "fp")))));
    }
    if Get(q, "ech") != "" {
      tls := tls.(ech := Some(Get(q, "ech")));
    }
    if Flag(q, "disable_sni") {
      tls := tls.(disableSni := Some(true));
    }
  }

  /** `getTransport` fills a fresh object. */
  method GetTransport(kind: string, q: seq<Param>) returns (t: Transport)
    requires kind == Get(q, "type")
    ensures t == ParseTransport(q)
  {
    t := NO_TRANSPORT;
    var host, path := Get(q, "host"), Get(q, "path");
    match Lower(kind)
    case "tcp" | "" =>
      if Get(q, "headerType") == "http" {
        t := t.(kind := Some("http"));
        if host != "" {
          t := t.(host := HostList(Split(host, ',')));
        }
        t := t.(path := Some(path));
      }
    case "http" | "h2" =>
      t := t.(kind := Some("http"));
      if host != "" {
        t := t.(host := HostList(Split(host, ',')));
      }
      t := t.(path := Some(path));
    case "ws" =>
      t := t.(kind := Some("ws"), path := Some(path));
      if host != "" {
        t := t.(headers := Some(Headers(Some(host), "")));
      }
    case "quic" =>
      t := t.(kind := Some("quic"));
    case "grpc" =>
      t := t.(kind := Some("grpc"), serviceName := Some(Get(q, "serviceName")));
    case "httpupgrade" =>
      t := t.(kind := Some("httpupgrade"), path := Some(path), host := HostText(host));
    case _ =>
  }

  // ---------------------------------------------------------------- canonical settings

  /** A list that survives being joined with commas. */
  predicate CanonicalList(xs: seq<string>) {
    xs != [] && Kept(xs) == xs && AllFree(xs, ',')
  }

  /** The settings a link can carry: nothing but the keys of the transport's own kind, each present. */
  predicate CanonicalTransport(t: Transport) {
    t == NO_TRANSPORT ||
    (t.kind.Some? && t.rest == "" &&
     match t.kind.value
     case "http" => t.path.Some? && t.headers.None? && t.serviceName.None? &&
                    (t.host.NoHost? || (t.host.HostList? && CanonicalList(t.host.hosts)))
     case "ws" => t.path.Some? && t.host.NoHost? && t.serviceName.None? &&
                  (t.headers.None? || (t.headers.value.host.Some? && t.headers.value.host.value != "" && t.headers.value.rest == ""))
     case "quic" => t.path.None? && t.host.NoHost? && t.headers.None? && t.serviceName.None?
     case "grpc" => t.serviceName.Some? && t.path.None? && t.host.NoHost? && t.headers.None?
     case "httpupgrade" => t.path.Some? && t.host.HostText? && t.headers.None? && t.serviceName.None?
     case _ => false)
  }

  predicate CanonicalTls(tls: Tls) {
    tls == NO_TLS ||
    (&& IsTrue(tls.enabled) && tls.ech.None? && tls.rest == ""
     && (if tls.reality.Some?
         then IsTrue(tls.reality.value.enabled) && tls.reality.value.publicKey.Some? && tls.reality.value.shortId.Some? &&
              tls.reality.value.rest == "" && tls.insecure.None? && tls.disableSni.None?
         else tls.insecure != Some(false) && tls.disableSni != Some(false))
     && (tls.utls.Some? ==> IsTrue(tls.utls.value.enabled) && tls.utls.value.fingerprint.Some? && tls.utls.value.fingerprint.value != "")
     && tls.serverName != Some("")
     && (tls.alpn.Some? ==> CanonicalList(tls.alpn.value) && AllPlain(tls.alpn.value)))
  }

  /** The only list that is printed unescaped must not hold what means something in a query. */
  predicate AllPlain(xs: seq<string>) {
    forall k :: 0 <= k < |xs| ==> Plain(xs[k])
  }

  // ---------------------------------------------------------------- the round trip

  predicate DistinctKeys(blocks: seq<Block>) {
    forall i, j :: 0 <= i < j < |blocks| ==> blocks[i].key != blocks[j].key
  }

  predicate HasKey(blocks: seq<Block>, key: string) {
    exists i :: 0 <= i < |blocks| && blocks[i].key == key
  }

  lemma {:induction false} GetLast(q: seq<Param>, p: Param, key: string)
    ensures p.key != key ==> Get(q + [p], key) == Get(q, key)
    ensures p.key == key && (forall k :: 0 <= k < |q| ==> q[k].key != key) ==> Get(q + [p], key) == p.value
  {
    if q == [] {
      assert q + [p] == [p];
    } else {
      assert (q + [p])[1..] == q[1..] + [p];
      GetLast(q[1..], p, key);
    }
  }

  lemma {:induction false} PrintedKeys(blocks: seq<Block>, k: nat)
    requires k < |Print(blocks)|
    ensures HasKey(blocks, Print(blocks)[k].key)
  {
    var last := |blocks| - 1;
    var before := Print(blocks[..last]);
    if k < |before| {
      PrintedKeys(blocks[..last], k);
      var i :| 0 <= i < last && blocks[..last][i].key == before[k].key;
      assert blocks[i].key == before[k].key;
    } else {
      assert blocks[last].key == Print(blocks)[k].key;
    }
  }

  lemma {:induction false} Absent(blocks: seq<Block>, key: string)
    requires !HasKey(blocks, key)
    ensures Get(Print(blocks), key) == ""
  {
    if blocks != [] {
      var last := |blocks| - 1;
      assert blocks[last].key != key;
      assert forall i :: 0 <= i < last ==> blocks[..last][i] == blocks[i];
      Absent(blocks[..last], key);
      assert Print(blocks[..last]) + [] == Print(blocks[..last]);
      if blocks[last].value.Some? {
        GetLast(Print(blocks[..last]), Param(blocks[last].key, blocks[last].value.value), key);
      }
    }
  }

  /** Every block is found under its key. */
  lemma {:induction false} Found(blocks: seq<Block>, i: nat)
    requires DistinctKeys(blocks) && i < |blocks|
    ensures Get(Print(blocks), blocks[i].key) == if blocks[i].value.Some? then blocks[i].value.value else ""
  {
    var last := |blocks| - 1;
    var key := blocks[i].key;
    var before := blocks[..last];
    assert Print(before) + [] == Print(before);
    if i < last {
      Found(before, i);
      assert before[i] == blocks[i];
      if blocks[last].value.Some? {
        GetLast(Print(before), Param(blocks[last].key, blocks[last].value.value), key);
      }
    } else {
      assert !HasKey(before, key);
      Absent(before, key);
      if blocks[last].value.Some? {
        forall k | 0 <= k < |Print(before)|
          ensures Print(before)[k].key != key
        {
          PrintedKeys(before, k);
        }
        GetLast(Print(before), Param(key, blocks[last].value.value), key);
      }
    }
  }

  /** Reading a list back: it comes back as it was exactly when it is canonical. */
  lemma ListRoundTrip(xs: seq<string>)
    ensures (Kept(xs) != [] && ListValue(Join(Kept(xs), ',')) == xs) <==> CanonicalList(xs)
    ensures Kept(xs) != [] ==> Join(Kept(xs), ',') != ""
  {
    KeptNotBlank(xs);
    JoinEmpty(Kept(xs), ',');
    SplitPieces(Join(Kept(xs), ','), ',');
    if Kept(xs) != [] && AllFree(Kept(xs), ',') {
      SplitJoin(Kept(xs), ',');
    }
    if ListValue(Join(Kept(xs), ',')) == xs {
      KeptFree(xs, ',');
    }
  }

  lemma {:induction false} KeptNotBlank(xs: seq<string>)
    ensures forall k :: 0 <= k < |Kept(xs)| ==> Kept(xs)[k] != ""
  {
    if xs != [] {
      KeptNotBlank(xs[..|xs| - 1]);
    }
  }

  lemma {:induction false} KeptFree(xs: seq<string>, c: char)
    requires AllFree(xs, c)
    ensures AllFree(Kept(xs), c)
  {
    if xs != [] {
      KeptFree(xs[..|xs| - 1], c);
      TrimFree(xs[|xs| - 1], c);
    }
  }

  lemma TrimFree(s: string, c: char)
    requires Free(s, c)
    ensures Free(Trim(s), c)
  {
    TrimLeftFree(s, c);
    TrimRightFree(TrimLeft(s), c);
  }

  lemma {:induction false} TrimLeftFree(s: string, c: char)
    requires Free(s, c)
    ensures Free(TrimLeft(s), c)
  {
    if s != "" && IsSpace(s[0]) {
      TrimLeftFree(s[1..], c);
    }
  }

  lemma {:induction false} TrimRightFree(s: string, c: char)
    requires Free(s, c)
    ensures Free(TrimRight(s), c)
  {
    if s != "" && IsSpace(s[|s| - 1]) {
      TrimRightFree(s[..|s| - 1], c);
    }
  }

  lemma LinkKeys(t: Transport, tls: Tls, flow: Option<string>)
    ensures DistinctKeys(LinkBlocks(t, tls, flow))
    ensures forall key :: key in ["headerType", "insecure", "ech"] ==> !HasKey(LinkBlocks(t, tls, flow), key)
  {
    hide ListText, FlagText;
  }

  function Text(value: Option<string>): string {
    if value.Some? then value.value else ""
  }

  lemma {:induction false} LowerFixed(s: string)
    requires forall k :: 0 <= k < |s| ==> !('A' <= s[k] <= 'Z')
    ensures Lower(s) == s
  {
    if s != "" {
      LowerFixed(s[1..]);
    }
  }

  /** What the transport parser reads from a link, for each kind the printer knows. */
  lemma TransportValues(t: Transport, tls: Tls, flow: Option<string>)
    ensures var q := Print(LinkBlocks(t, tls, flow));
      && Get(q, "type") == TransportType(t) && Get(q, "headerType") == ""
      && (t.kind == Some("http") ==>
          Get(q, "host") == Text(if t.host.HostList? then ListText(t.host.hosts) else None) && Get(q, "path") == Text(t.path))
      && (t.kind == Some("ws") ==>
          Get(q, "host") == Text(if t.headers.Some? then t.headers.value.host else None) && Get(q, "path") == Text(t.path))
      && (t.kind == Some("grpc") ==> Get(q, "serviceName") == Text(t.serviceName))
      && (t.kind == Some("httpupgrade") ==>
          Get(q, "host") == (if t.host.HostText? then t.host.host else "") && Get(q, "path") == Text(t.path))
  {
    hide Print, Get, ListText, TlsBlocks, DistinctKeys, HasKey;
    var blocks := LinkBlocks(t, tls, flow);
    LinkKeys(t, tls, flow);
    Absent(blocks, "headerType");
    Found(blocks, 0);
    if t.kind in [Some("http"), Some("ws"), Some("httpupgrade")] {
      Found(blocks, 1);
      Found(blocks, 2);
    } else if t.kind == Some("grpc") {
      Found(blocks, 1);
    }
  }

  lemma KindsAreLower()
    ensures Lower("tcp") == "tcp" && Lower("http") == "http" && Lower("ws") == "ws"
    ensures Lower("quic") == "quic" && Lower("grpc") == "grpc" && Lower("httpupgrade") == "httpupgrade"
  {
    hide Lower;
    LowerFixed("tcp");
    LowerFixed("http");
    LowerFixed("ws");
    LowerFixed("quic");
    LowerFixed("grpc");
    LowerFixed("httpupgrade");
  }

  lemma TransportOfParams(t: Transport, tls: Tls, flow: Option<string>)
    ensures ParseTransport(Print(LinkBlocks(t, tls, flow))) == t <==> CanonicalTransport(t)
  {
    hide Print, Get, LinkBlocks, Lower, Kept, Join, Split, AllFree;
    TransportValues(t, tls, flow);
    KindsAreLower();
    if t.kind == Some("http") && t.host.HostList? {
      ListRoundTrip(t.host.hosts);
    }
  }

  /** What the TLS parser reads from a link with TLS. */
  lemma TlsValues(t: Transport, tls: Tls, flow: Option<string>)
    requires IsTrue(tls.enabled)
    ensures var q := Print(LinkBlocks(t, tls, flow));
      && Get(q, "security") == (if UsesReality(tls) then "reality" else "tls")
      && (UsesReality(tls) ==> Get(q, "pbk") == Text(tls.reality.value.publicKey) && Get(q, "sid") == Text(tls.reality.value.shortId))
      && Get(q, "allowInsecure") == (if UsesReality(tls) then "" else Text(FlagText(tls.insecure)))
      && Get(q, "disable_sni") == (if UsesReality(tls) then "" else Text(FlagText(tls.disableSni)))
      && Get(q, "insecure") == "" && Get(q, "ech") == ""
      && Get(q, "fp") == Text(if tls.utls.Some? then tls.utls.value.fingerprint else None)
      && Get(q, "sni") == Text(tls.serverName)
      && Get(q, "alpn") == Text(if tls.alpn.Some? then ListText(tls.alpn.value) else None)
  {
    hide Print, Get, ListText, FlagText, DistinctKeys, HasKey, TransportBlocks;
    var blocks := LinkBlocks(t, tls, flow);
    var n := |TransportBlocks(t)|;
    LinkKeys(t, tls, flow);
    Absent(blocks, "insecure");
    Absent(blocks, "ech");
    Found(blocks, n);
    Found(blocks, n + 1);
    Found(blocks, n + 2);
    Found(blocks, n + 3);
    Found(blocks, n + 4);
    Found(blocks, n + 5);
    if UsesReality(tls) {
      RealityKeys(t, tls, flow);
      Absent(blocks, "allowInsecure");
      Absent(blocks, "disable_sni");
    }
  }

  lemma RealityKeys(t: Transport, tls: Tls, flow: Option<string>)
    requires UsesReality(tls)
    ensures !HasKey(LinkBlocks(t, tls, flow), "allowInsecure") && !HasKey(LinkBlocks(t, tls, flow), "disable_sni")
  {
    hide ListText, FlagText;
  }

  lemma NoTlsKeys(t: Transport, tls: Tls, flow: Option<string>)
    requires !IsTrue(tls.enabled)
    ensures ParseTls(Print(LinkBlocks(t, tls, flow))) == NO_TLS
  {
    hide ListText, Print, Get, Split, HasKey;
    var blocks := LinkBlocks(t, tls, flow);
    TransportKeysOnly(t, tls, flow);
    Absent(blocks, "security");
    Absent(blocks, "insecure");
    Absent(blocks, "allowInsecure");
    Absent(blocks, "disable_sni");
    Absent(blocks, "fp");
    Absent(blocks, "sni");
    Absent(blocks, "alpn");
    Absent(blocks, "ech");
  }

  lemma TransportKeysOnly(t: Transport, tls: Tls, flow: Option<string>)
    requires !IsTrue(tls.enabled)
    ensures forall key :: HasKey(LinkBlocks(t, tls, flow), key) ==> key in ["type", "host", "path", "serviceName"]
  {
    hide ListText;
  }

  lemma FlagReadsBack(flag: Option<bool>)
    ensures (if Text(FlagText(flag)) == "1" then Some(true) else None) == flag <==> flag != Some(false)
    ensures Text(FlagText(flag)) in {"", "1"}
  {
    if flag.Some? {
      var b: bool := flag.value;
      assert flag == if b then Some(true) else Some(false);
    }
  }

  predicate CanonicalButPlain(tls: Tls) {
    CanonicalTls(tls.(alpn := None)) && (tls.alpn.Some? ==> IsTrue(tls.enabled) && CanonicalList(tls.alpn.value))
  }

  lemma TlsOfParams(t: Transport, tls: Tls, flow: Option<string>)
    ensures ParseTls(Print(LinkBlocks(t, tls, flow))) == tls <==> CanonicalButPlain(tls)
  {
    hide Print, Get, LinkBlocks, Kept, Join, Split, AllFree, AllPlain;
    if IsTrue(tls.enabled) {
      TlsValues(t, tls, flow);
      FlagReadsBack(tls.insecure);
      FlagReadsBack(tls.disableSni);
      if tls.alpn.Some? {
        ListRoundTrip(tls.alpn.value);
      }
    } else {
      NoTlsKeys(t, tls, flow);
    }
  }

  // ---------------------------------------------------------------- the text of the query

  function ReadTransport(text: string): Option<Transport> {
    var q := ReadQuery(text);
    if q.Some? then Some(ParseTransport(q.value)) else None
  }

  function ReadTls(text: string): Option<Tls> {
    var q := ReadQuery(text);
    if q.Some? then Some(ParseTls(q.value)) else None
  }

  function ReadFlow(text: string): Option<string> {
    var q := ReadQuery(text);
    if q.Some? then Some(Get(q.value, "flow")) else None
  }

  /** The text printed under "alpn". */
  function AlpnText(tls: Tls): Option<string> {
    if IsTrue(tls.enabled) && tls.alpn.Some? then ListText(tls.alpn.value) else None
  }

  predicate PlainAlpn(tls: Tls) {
    AlpnText(tls).Some? ==> Plain(AlpnText(tls).value)
  }

  function Leading(t: Transport, tls: Tls): seq<Block> {
    if IsTrue(tls.enabled) then TransportBlocks(t) + TlsBlocks(tls, "allowInsecure")[..5] else TransportBlocks(t)
  }

  function Trailing(tls: Tls, flow: Option<string>): seq<Block> {
    if IsTrue(tls.enabled) then [Block("flow", flow)] else []
  }

  /** The parameters of a link around its "alpn". */
  lemma AroundAlpn(t: Transport, tls: Tls, flow: Option<string>)
    ensures var alpn := if AlpnText(tls).Some? then [Param("alpn", AlpnText(tls).value)] else [];
      Print(LinkBlocks(t, tls, flow)) == Print(Leading(t, tls)) + alpn + Print(Trailing(tls, flow))
  {
    hide Print, TransportBlocks, ListText, FlagText;
    PrintNothing();
    if IsTrue(tls.enabled) {
      var b := Block("alpn", AlpnText(tls));
      assert LinkBlocks(t, tls, flow) == Leading(t, tls) + [b] + Trailing(tls, flow);
      PrintAppend(Leading(t, tls) + [b], Trailing(tls, flow));
      PrintOneMore(Leading(t, tls), b);
    } else {
      assert LinkBlocks(t, tls, flow) == Leading(t, tls);
      assert Print(Leading(t, tls)) + [] + [] == Print(Leading(t, tls));
    }
  }

  predicate EscapedKeys(blocks: seq<Block>) {
    forall i :: 0 <= i < |blocks| ==> KeyOk(blocks[i].key) && !Raw(blocks[i].key)
  }

  lemma PrintedEscaped(blocks: seq<Block>)
    requires EscapedKeys(blocks)
    ensures AllEscaped(Print(blocks))
  {
    hide Print, KeyOk, Raw;
    forall k | 0 <= k < |Print(blocks)|
      ensures KeyOk(Print(blocks)[k].key) && !Raw(Print(blocks)[k].key)
    {
      PrintedKeys(blocks, k);
    }
  }

  lemma KeysAreOk()
    ensures KeyOk("type") && KeyOk("host") && KeyOk("path") && KeyOk("serviceName") && KeyOk("security") && KeyOk("pbk")
    ensures KeyOk("sid") && KeyOk("allowInsecure") && KeyOk("disable_sni") && KeyOk("fp") && KeyOk("sni") && KeyOk("flow")
    ensures KeyOk("alpn")
  {
  }

  lemma OthersEscaped(t: Transport, tls: Tls, flow: Option<string>)
    ensures AllEscaped(Print(Leading(t, tls))) && AllEscaped(Print(Trailing(tls, flow)))
  {
    hide Print, ListText, FlagText, KeyOk, AllEscaped;
    KeysAreOk();
    assert EscapedKeys(TransportBlocks(t));
    assert EscapedKeys(TlsBlocks(tls, "allowInsecure")[..5]);
    PrintedEscaped(Leading(t, tls));
    PrintedEscaped(Trailing(tls, flow));
  }

  /** With a plain "alpn" the parameters are read back as they were printed. */
  lemma PlainReadsBack(t: Transport, tls: Tls, flow: Option<string>)
    requires PlainAlpn(tls)
    ensures ReadQuery(LinkText(t, tls, flow)) == Some(Print(LinkBlocks(t, tls, flow)))
  {
    hide Print, LinkBlocks, Leading, Trailing, ListText, ReadQuery, QueryText, Plain, KeyOk;
    AroundAlpn(t, tls, flow);
    OthersEscaped(t, tls, flow);
    KeysAreOk();
    QueryReadsBack(Print(LinkBlocks(t, tls, flow)));
  }

  /** Without it the TLS settings are never read back. */
  lemma SpoiledTls(t: Transport, tls: Tls, flow: Option<string>)
    requires !PlainAlpn(tls)
    ensures ReadTls(LinkText(t, tls, flow)) != Some(tls)
  {
    hide Print, LinkBlocks, Leading, Trailing, ReadQuery, QueryText, Plain, KeyOk, Kept, Join, Split, Get, AllEscaped;
    var xs := tls.alpn.value;
    var value := AlpnText(tls).value;
    AroundAlpn(t, tls, flow);
    OthersEscaped(t, tls, flow);
    ListRoundTrip(xs);
    AlpnLost(Print(Leading(t, tls)), value, Print(Trailing(tls, flow)));
    var q := ReadQuery(LinkText(t, tls, flow));
    if q.Some? && ParseTls(q.value) == tls {
      var read := Get(q.value, "alpn");
      GetFinds(q.value, "alpn");
      SplitPieces(read, ',');
      assert read == Join(xs, ',');
      KeptShrinks(xs);
      assert false;
    }
  }

  lemma {:induction false} GetFinds(q: seq<Param>, key: string)
    ensures Get(q, key) == "" || exists k :: 0 <= k < |q| && q[k] == Param(key, Get(q, key))
  {
    if q != [] && q[0].key != key {
      GetFinds(q[1..], key);
      if Get(q, key) != "" {
        var k :| 0 <= k < |q[1..]| && q[1..][k] == Param(key, Get(q, key));
        assert q[k + 1] == Param(key, Get(q, key));
      }
    } else if q != [] {
      assert q[0] == Param(key, Get(q, key));
    }
  }

  function Length(xs: seq<string>): nat {
    if xs == [] then 0 else Length(xs[..|xs| - 1]) + |xs[|xs| - 1]| + 1
  }

  lemma {:induction false} JoinLength(xs: seq<string>)
    requires xs != []
    ensures |Join(xs, ',')| + 1 == Length(xs)
  {
    if |xs| > 1 {
      var before, x := xs[..|xs| - 1], xs[|xs| - 1];
      JoinLength(before);
      JoinAppend(before, [x], ',');
      assert before + [x] == xs;
    }
  }

  lemma {:induction false} KeptIsShorter(xs: seq<string>)
    ensures Length(Kept(xs)) <= Length(xs)
    ensures Length(Kept(xs)) == Length(xs) ==> Kept(xs) == xs
  {
    hide Kept, Length, Trim;
    if xs == [] {
      NothingKept();
    } else {
      var before, x := xs[..|xs| - 1], xs[|xs| - 1];
      assert xs == before + [x];
      KeptIsShorter(before);
      TrimShrinks(x);
      KeptOneMore(before, x);
      LengthOneMore(before, x);
      LengthOneMore(Kept(before), Trim(x));
      assert Kept(before) + [] == Kept(before);
    }
  }

  lemma NothingKept()
    ensures Kept([]) == [] && Length([]) == 0
  {
  }

  lemma KeptOneMore(xs: seq<string>, x: string)
    ensures Kept(xs + [x]) == Kept(xs) + if Trim(x) != "" then [Trim(x)] else []
  {
    hide Trim;
    assert (xs + [x])[..|xs|] == xs;
  }

  lemma LengthOneMore(xs: seq<string>, x: string)
    ensures Length(xs + [x]) == Length(xs) + |x| + 1
  {
    assert (xs + [x])[..|xs|] == xs;
  }

  lemma TrimFixed(s: string)
    requires Trimmed(s)
    ensures Trim(s) == s
  {
    hide IsSpace;
  }

  lemma TrimShrinks(s: string)
    ensures |Trim(s)| <= |s| && (|Trim(s)| == |s| ==> Trim(s) == s)
  {
  }

  /** Trimming shortens the joined list unless it changes nothing. */
  lemma KeptShrinks(xs: seq<string>)
    requires Kept(xs) != []
    ensures |Join(Kept(xs), ',')| <= |Join(xs, ',')|
    ensures |Join(Kept(xs), ',')| == |Join(xs, ',')| ==> Kept(xs) == xs
  {
    hide Kept, Join;
    KeptIsShorter(xs);
    JoinLength(Kept(xs));
    JoinLength(xs);
  }

  lemma {:induction false} JoinPlain(xs: seq<string>)
    ensures Plain(Join(xs, ',')) <==> AllPlain(xs)
  {
    if |xs| > 1 {
      var rest := Join(xs[1..], ',');
      JoinPlain(xs[1..]);
      CommaIsPlain();
      PlainAppend(xs[0] + [','], rest);
      PlainAppend(xs[0], [',']);
      AllPlainTail(xs);
    }
  }

  lemma PlainAppend(a: string, b: string)
    ensures Plain(a + b) <==> Plain(a) && Plain(b)
  {
    hide PlainChar;
    if Plain(a + b) {
      forall k | 0 <= k < |a|
        ensures PlainChar(a[k])
      {
        assert (a + b)[k] == a[k];
      }
      forall k | 0 <= k < |b|
        ensures PlainChar(b[k])
      {
        assert (a + b)[|a| + k] == b[k];
      }
    }
  }

  lemma CommaIsPlain()
    ensures Plain(",")
  {
  }

  lemma AllPlainTail(xs: seq<string>)
    requires xs != []
    ensures AllPlain(xs) <==> Plain(xs[0]) && AllPlain(xs[1..])
  {
    hide Plain;
    forall k | 1 <= k < |xs|
      ensures xs[1..][k - 1] == xs[k]
    {
    }
  }

  lemma CanonicalSplits(tls: Tls)
    ensures CanonicalTls(tls) <==> CanonicalButPlain(tls) && PlainAlpn(tls)
  {
    if tls.alpn.Some? && IsTrue(tls.enabled) {
      JoinPlain(tls.alpn.value);
      assert tls.(alpn := None) != NO_TLS;
    }
  }

  /** The TLS settings of a link read back as they were exactly when they are canonical. */
  lemma TlsRoundTrip(t: Transport, tls: Tls, flow: Option<string>)
    ensures ReadTls(LinkText(t, tls, flow)) == Some(tls) <==> CanonicalTls(tls)
  {
    hide LinkText, ParseTls, ReadQuery, CanonicalTls, CanonicalButPlain, PlainAlpn;
    CanonicalSplits(tls);
    if PlainAlpn(tls) {
      PlainReadsBack(t, tls, flow);
      TlsOfParams(t, tls, flow);
    } else {
      SpoiledTls(t, tls, flow);
    }
  }

  /** With a plain "alpn", so in particular without one, the transport reads back exactly when it is canonical. */
  lemma TransportRoundTrip(t: Transport, tls: Tls, flow: Option<string>)
    requires PlainAlpn(tls)
    ensures ReadTransport(LinkText(t, tls, flow)) == Some(t) <==> CanonicalTransport(t)
  {
    hide LinkText, ParseTransport, ReadQuery, CanonicalTransport, PlainAlpn;
    PlainReadsBack(t, tls, flow);
    TransportOfParams(t, tls, flow);
  }

  lemma FlowReadsBack(t: Transport, tls: Tls, flow: Option<string>)
    ensures Get(Print(LinkBlocks(t, tls, flow)), "flow") == if IsTrue(tls.enabled) then Text(flow) else ""
  {
    hide Print, Get, ListText, FlagText, HasKey, DistinctKeys;
    var blocks := LinkBlocks(t, tls, flow);
    if IsTrue(tls.enabled) {
      LinkKeys(t, tls, flow);
      assert blocks[|blocks| - 1] == Block("flow", flow);
      Found(blocks, |blocks| - 1);
    } else {
      TransportKeysOnly(t, tls, flow);
      Absent(blocks, "flow");
    }
  }

  /** A whole link reads back exactly when both settings are canonical and the flow is not lost for want of TLS. */
  lemma LinkRoundTrip(t: Transport, tls: Tls, flow: Option<string>)
    ensures var text := LinkText(t, tls, flow);
      ReadTransport(text) == Some(t) && ReadTls(text) == Some(tls) && ReadFlow(text) == Some(Text(flow)) <==>
      CanonicalTransport(t) && CanonicalTls(tls) && (IsTrue(tls.enabled) || Text(flow) == "")
  {
    hide LinkText, ParseTransport, ParseTls, ReadQuery, CanonicalTransport, CanonicalTls, CanonicalButPlain, PlainAlpn, Get;
    TlsRoundTrip(t, tls, flow);
    CanonicalSplits(tls);
    if PlainAlpn(tls) {
      TransportRoundTrip(t, tls, flow);
      PlainReadsBack(t, tls, flow);
      FlowReadsBack(t, tls, flow);
    }
  }

  /** The query of a link; it tells the settings exactly if they are canonical. */
  method LinkQuery(t: Transport, tls: Tls, flow: Option<string>) returns (text: string)
    ensures text == LinkText(t, tls, flow)
    ensures ReadTransport(text) == Some(t) && ReadTls(text) == Some(tls) && ReadFlow(text) == Some(Text(flow)) <==>
      CanonicalTransport(t) && CanonicalTls(tls) && (IsTrue(tls.enabled) || Text(flow) == "")
  {
    hide ReadTransport, ReadTls, ReadFlow, CanonicalTransport, CanonicalTls;
    var params := LinkParams(t, tls, flow);
    text := AddParams(params);
    LinkRoundTrip(t, tls, flow);
  }

  /** The settings of a link with this query, as `vless` and `trojan` read them; None stands for a link that does not
      parse. */
  method ReadLink(text: string) returns (r: Option<(Transport, Tls, string)>)
    ensures r.None? ==> ReadTransport(text) == None && ReadTls(text) == None && ReadFlow(text) == None
    ensures r.Some? ==> ReadTransport(text) == Some(r.value.0) && ReadTls(text) == Some(r.value.1) && ReadFlow(text) == Some(r.value.2)
  {
    hide ReadQuery, ParseTransport, ParseTls;
    var q := ReadQuery(text);
    if q.None? {
      return None;
    }
    var tls := GetTls(Get(q.value, "security"), q.value);
    var t := GetTransport(Get(q.value, "type"), q.value);
    r := Some((t, tls, Get(q.value, "flow")));
  }

  /** A link that is printed and read: the settings come back exactly if they are canonical. */
  method PrintAndRead(t: Transport, tls: Tls, flow: Option<string>) returns (r: Option<(Transport, Tls, string)>)
    ensures r == Some((t, tls, Text(flow))) <==>
      CanonicalTransport(t) && CanonicalTls(tls) && (IsTrue(tls.enabled) || Text(flow) == "")
  {
    hide ReadTransport, ReadTls, ReadFlow, CanonicalTransport, CanonicalTls, LinkText;
    var text := LinkQuery(t, tls, flow);
    r := ReadLink(text);
  }

  // ---------------------------------------------------------------- settings that are lost

  const PLAIN_TLS := NO_TLS.(enabled := Some(true))

  /** An ampersand in a protocol name ends the value. */
  lemma AmpersandLost(t: Transport, flow: Option<string>)
    ensures ReadTls(LinkText(t, PLAIN_TLS.(alpn := Some(["a&b"])), flow)) != Some(PLAIN_TLS.(alpn := Some(["a&b"])))
    ensures CanonicalTls(PLAIN_TLS.(alpn := Some(["a-b"])))
  {
    hide LinkText, ReadTls;
    var tls := PLAIN_TLS.(alpn := Some(["a&b"]));
    assert !Plain("a&b") by { assert !PlainChar("a&b"[1]); }
    assert tls.alpn.value[0] == "a&b";
    TlsRoundTrip(t, tls, flow);
    TrimmedName();
  }

  lemma TrimmedName()
    ensures Kept(["a-b"]) == ["a-b"] && AllFree(["a-b"], ',') && Plain("a-b")
  {
    assert Trimmed("a-b");
    hide Trim, Trimmed;
    TrimFixed("a-b");
    assert ["a-b"][..0] == [];
  }

  /** A protocol name can bring a parameter of its own, which the transport parser reads. */
  lemma AlpnChangesTransport(tls: Tls, flow: Option<string>)
    requires IsTrue(tls.enabled) && tls.alpn == Some(["a&headerType=http"])
    ensures CanonicalTransport(NO_TRANSPORT) && ReadTransport(LinkText(NO_TRANSPORT, tls, flow)) != Some(NO_TRANSPORT)
  {
    hide Print, LinkBlocks, TlsBlocks, ReadQuery, QueryText, Lower, ListText, Get, DistinctKeys, Plain, KeyOk, Pair, AllEscaped, Trailing;
    HeaderText();
    AroundAlpn(NO_TRANSPORT, tls, flow);
    OthersEscaped(NO_TRANSPORT, tls, flow);
    AmpersandInjects(Print(Leading(NO_TRANSPORT, tls)), "a", Param("headerType", "http"), Print(Trailing(tls, flow)));
    var blocks := HeaderBlocks(tls, flow);
    HeaderKeys(tls, flow);
    Found(blocks, 0);
    Found(blocks, 7);
    KindsAreLower();
  }

  /** The blocks that would print what is read. */
  function HeaderBlocks(tls: Tls, flow: Option<string>): seq<Block> {
    Leading(NO_TRANSPORT, tls) + [Block("alpn", Some("a")), Block("headerType", Some("http"))] + Trailing(tls, flow)
  }

  lemma HeaderKeys(tls: Tls, flow: Option<string>)
    requires IsTrue(tls.enabled)
    ensures var blocks := HeaderBlocks(tls, flow);
      && DistinctKeys(blocks) && |blocks| == 9 && blocks[0] == Block("type", Some("tcp")) && blocks[7] == Block("headerType", Some("http"))
      && Print(blocks) == Print(Leading(NO_TRANSPORT, tls)) + [Param("alpn", "a"), Param("headerType", "http")] + Print(Trailing(tls, flow))
  {
    hide ListText, FlagText, Print;
    var added := [Block("alpn", Some("a")), Block("headerType", Some("http"))];
    PrintAppend(Leading(NO_TRANSPORT, tls) + added, Trailing(tls, flow));
    PrintAppend(Leading(NO_TRANSPORT, tls), added);
    PrintNothing();
    PrintOneMore([], added[0]);
    PrintOneMore([added[0]], added[1]);
    assert [] + [added[0]] == [added[0]] && [added[0]] + [added[1]] == added;
  }

  lemma HeaderText()
    ensures ListText(["a&headerType=http"]) == Some("a" + "&" + Pair(Param("headerType", "http")))
    ensures Plain("a") && KeyOk("headerType") && !Raw("headerType")
  {
    hide ListText, Pair, KeyOk, Trimmed;
    HeaderPair();
    HeaderTrimmed();
    OneItemText("a&headerType=http");
  }

  lemma HeaderTrimmed()
    ensures Trimmed("a&headerType=http") && "a&headerType=http" == "a" + "&" + "headerType=http"
  {
  }

  lemma OneItemText(s: string)
    requires s != "" && Trimmed(s)
    ensures ListText([s]) == Some(s)
  {
    hide Join, Kept, Trim, Trimmed;
    TrimFixed(s);
    NothingKept();
    KeptOneMore([], s);
    JoinOne(s);
    assert [] + [s] == [s];
  }

  lemma JoinOne(s: string)
    ensures Join([s], ',') == s
  {
  }

  lemma HeaderPair()
    ensures Pair(Param("headerType", "http")) == "headerType=http" && Plain("a") && KeyOk("headerType") && !Raw("headerType")
  {
    EscapeFixed("http");
  }

  /** A websocket transport without a path comes back with an empty one. */
  lemma PathAppears(tls: Tls, flow: Option<string>)
    requires PlainAlpn(tls)
    ensures ReadTransport(LinkText(NO_TRANSPORT.(kind := Some("ws")), tls, flow)) != Some(NO_TRANSPORT.(kind := Some("ws")))
  {
    hide LinkText, ReadTransport;
    TransportRoundTrip(NO_TRANSPORT.(kind := Some("ws")), tls, flow);
  }
}
