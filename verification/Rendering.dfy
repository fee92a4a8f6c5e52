/**
 What the running core is started with: the configuration rendered from the database (service/config.go:62-105,
 service/inbounds.go:224-329). Users are kept by the id of their client; the source lists them in query order.
 */
module Rendering {
  import opened Clients
  import opened EgressTables
  import opened ManagedRoutes
  import opened Wrappers

  /** `tls` is the resolved TLS object; `version` and `cipher` are the two options that decide about users. */
  datatype Inbound = Inbound(kind: string, tag: string, options: string, tls: Option<string>, version: int, cipher: string)

  /** An inbound as the core runs it, with the text it has for each of its users; no users at all for the kinds that
      have none. */
  datatype Listener = Listener(inbound: Inbound, users: Option<map<nat, string>>)

  /** The running inbounds by tag, and the stored ones by id. */
  type Listeners = map<string, Listener>

  type InboundTable = map<nat, Inbound>

  datatype Config = Config(
    base: string, inbounds: Listeners, outbounds: map<string, Outbound>,
    endpoints: map<nat, Row>, managed: map<string, ManagedRule>)

  /** A row of the audit table. */
  datatype Audit = Audit(actor: string, key: string, action: string)

  datatype Database = Database(
    base: string, clients: Table, nextClient: nat, inbounds: InboundTable, nextInbound: nat, tables: Tables,
    audit: seq<Audit>)

  // ---------------------------------------------------------------- the users of an inbound

  predicate HasUser(kind: string) {
    kind in {"mixed", "socks", "http", "shadowsocks", "vmess", "trojan", "naive", "hysteria", "shadowtls", "tuic",
             "hysteria2", "vless", "anytls"}
  }

  /** The enabled clients of the inbound with their settings. */
  function Selected(t: Table, inbound: nat): map<nat, Settings> {
    map id | id in t && t[id].enable && inbound in t[id].inbounds :: t[id].config
  }

  /** `hasUser` and the first branch of `fetchUsers`: ShadowTLS has users from version 3 on. */
  predicate Bears(inbound: Inbound) {
    HasUser(inbound.kind) && !(inbound.kind == "shadowtls" && inbound.version < 3)
  }

  function UserKey(inbound: Inbound): string {
    if inbound.kind == "shadowsocks" && inbound.cipher == "2022-blake3-aes-128-gcm" then "shadowsocks16" else inbound.kind
  }

  const FLOW := "xtls-rprx-vision"

  /** `strings.Replace` of a word by nothing, wherever it occurs. */
  function Cut(word: string, text: string): string
    requires word != ""
    decreases |text|
  {
    if text == "" then ""
    else if word <= text then Cut(word, text[|word|..])
    else [text[0]] + Cut(word, text[1..])
  }

  function WithoutFlow(text: string): string {
    Cut(FLOW, text)
  }

  /** What an inbound has of a client's settings: the part under its own key, for VLESS without TLS without the XTLS
      flow. */
  function Shown(inbound: Inbound, config: Settings): string {
    var part := if UserKey(inbound) in config.parts then config.parts[UserKey(inbound)] else "";
    if inbound.kind == "vless" && inbound.tls.None? then WithoutFlow(part) else part
  }

  /** `fetchUsers` on the clients a condition selects. */
  function FetchUsers(inbound: Inbound, selected: map<nat, Settings>): map<nat, string> {
    if Bears(inbound) then map id | id in selected :: Shown(inbound, selected[id]) else map[]
  }

  /** `addUsers`: the inbound with the clients that refer to it. */
  function Rendered(t: Table, id: nat, inbound: Inbound): (l: Listener)
    ensures l.inbound == inbound
  {
    Listener(inbound, if HasUser(inbound.kind) then Some(FetchUsers(inbound, Selected(t, id))) else None)
  }

  /** What the inbound shows of one client, if the client is enabled in it and it bears users. */
  function Seen(t: Table, c: nat, id: nat, inbound: Inbound): Option<string> {
    if c in t then SeenOf(t[c], id, inbound) else None
  }

  function SeenOf(c: Client, id: nat, inbound: Inbound): Option<string> {
    if Bears(inbound) && c.enable && id in c.inbounds then Some(Shown(inbound, c.config)) else None
  }

  /** The inbound shows the same of every client in both tables. */
  ghost predicate SameUsers(t: Table, u: Table, id: nat, inbound: Inbound) {
    forall c :: Seen(t, c, id, inbound) == Seen(u, c, id, inbound)
  }

  /** Selections of clients are told apart exactly by what the inbound shows of them. */
  lemma FetchTellsUsers(inbound: Inbound, m: map<nat, Settings>, n: map<nat, Settings>)
    ensures FetchUsers(inbound, m) == FetchUsers(inbound, n) <==>
      (Bears(inbound) ==> m.Keys == n.Keys && forall id :: id in m ==> Shown(inbound, m[id]) == Shown(inbound, n[id]))
  {
    hide Shown, Bears;
    if FetchUsers(inbound, m) == FetchUsers(inbound, n) && Bears(inbound) {
      var f, g := FetchUsers(inbound, m), FetchUsers(inbound, n);
      assert m.Keys == f.Keys == g.Keys == n.Keys;
      forall id | id in m
        ensures Shown(inbound, m[id]) == Shown(inbound, n[id])
      {
        assert f[id] == Shown(inbound, m[id]) && g[id] == Shown(inbound, n[id]);
      }
    }
  }

  /** Two tables render an inbound alike exactly if it shows the same of every client. */
  lemma RenderedTellsUsers(t: Table, u: Table, id: nat, inbound: Inbound)
    ensures Rendered(t, id, inbound) == Rendered(u, id, inbound) <==> SameUsers(t, u, id, inbound)
  {
    hide Bears, Shown, FetchUsers;
    var m, n := Selected(t, id), Selected(u, id);
    FetchTellsUsers(inbound, m, n);
    BearsHasUser(inbound);
    if Bears(inbound) {
      if SameUsers(t, u, id, inbound) {
        forall c
          ensures c in m <==> c in n
          ensures c in m ==> Shown(inbound, m[c]) == Shown(inbound, n[c])
        {
          assert Seen(t, c, id, inbound) == Seen(u, c, id, inbound);
        }
      } else {
        var c :| Seen(t, c, id, inbound) != Seen(u, c, id, inbound);
        assert c in m || c in n;
      }
    }
  }

  lemma BearsHasUser(inbound: Inbound)
    ensures Bears(inbound) ==> HasUser(inbound.kind)
    ensures !Bears(inbound) ==> FetchUsers(inbound, map[]) == map[]
  {
  }

  /** Other settings of a client are another user to an inbound exactly if it shows another part of them. */
  lemma SettingsSeen(t: Table, c: nat, config: Settings, id: nat, inbound: Inbound)
    requires c in t && t[c].enable && id in t[c].inbounds && Bears(inbound)
    ensures Rendered(t[c := t[c].(config := config)], id, inbound) == Rendered(t, id, inbound) <==>
      Shown(inbound, config) == Shown(inbound, t[c].config)
  {
    hide Bears, Shown, Rendered;
    var u := t[c := t[c].(config := config)];
    RenderedTellsUsers(u, t, id, inbound);
    assert Seen(u, c, id, inbound) == Some(Shown(inbound, config));
    assert Seen(t, c, id, inbound) == Some(Shown(inbound, t[c].config));
  }

  // ---------------------------------------------------------------- what a configuration shows

  /** The running inbounds are those of the tables, each with the users it has there. */
  ghost predicate Shows(running: Listeners, t: Table, inbounds: InboundTable) {
    && (forall i :: i in inbounds ==> inbounds[i].tag in running && running[inbounds[i].tag] == Rendered(t, i, inbounds[i]))
    && (forall tag :: tag in running ==> exists i :: i in inbounds && inbounds[i].tag == tag)
  }

  ghost predicate ShowsOutbounds(running: map<string, Outbound>, outbounds: map<nat, Outbound>) {
    && (forall i :: i in outbounds ==> outbounds[i].tag in running && running[outbounds[i].tag] == outbounds[i])
    && (forall tag :: tag in running ==> exists i :: i in outbounds && outbounds[i].tag == tag)
  }

  /** The configuration is the full rendering of the database. */
  ghost predicate ShowsAll(c: Config, db: Database) {
    && c.base == db.base && c.endpoints == db.tables.endpoints && c.managed == db.tables.managed
    && Shows(c.inbounds, db.clients, db.inbounds) && ShowsOutbounds(c.outbounds, db.tables.outbounds)
  }

  /** There is only one full rendering. */
  lemma RenderingUnique(c: Config, d: Config, db: Database)
    requires ShowsAll(c, db) && ShowsAll(d, db)
    ensures c == d
  {
    hide Rendered;
    assert c.inbounds == d.inbounds;
    assert c.outbounds == d.outbounds;
  }

  ghost predicate InboundTagsUnique(inbounds: InboundTable) {
    forall i, j :: i in inbounds && j in inbounds && inbounds[i].tag == inbounds[j].tag ==> i == j
  }

  ghost predicate OutboundTagsUnique(outbounds: map<nat, Outbound>) {
    forall i, j :: i in outbounds && j in outbounds && outbounds[i].tag == outbounds[j].tag ==> i == j
  }

  // ---------------------------------------------------------------- the users, field by field

  /** `word` stands in `text` at position `k`. */
  predicate Occurs(word: string, text: string, k: nat) {
    k + |word| <= |text| && text[k..k + |word|] == word
  }

  /** `shown` is `text` without the word: the text itself if the word does not occur, and else what stands before its
      first occurrence and the rest without it. */
  predicate Without(word: string, text: string, shown: string)
    requires word != ""
    decreases |text|, 1
  {
    || ((forall k :: 0 <= k <= |text| ==> !Occurs(word, text, k)) && shown == text)
    || (exists k | 0 <= k < |text| :: WithoutFirst(word, text, shown, k))
  }

  predicate WithoutFirst(word: string, text: string, shown: string, k: nat)
    requires word != ""
    decreases |text|, 0
  {
    && Occurs(word, text, k) && (forall j :: 0 <= j < k ==> !Occurs(word, text, j))
    && k <= |shown| && shown[..k] == text[..k] && Without(word, text[k + |word|..], shown[k..])
  }

  /** The settings of a client under one key. */
  function PartUnder(config: Settings, key: string): string {
    if key in config.parts then config.parts[key] else ""
  }

  /** What the core has for a client of an inbound. */
  ghost predicate ServesUser(inbound: Inbound, config: Settings, text: string) {
    && (inbound.kind == "shadowsocks" && inbound.cipher == "2022-blake3-aes-128-gcm" ==> text == PartUnder(config, "shadowsocks16"))
    && (inbound.kind == "shadowsocks" && inbound.cipher != "2022-blake3-aes-128-gcm" ==> text == PartUnder(config, "shadowsocks"))
    && (inbound.kind == "vless" && inbound.tls.Some? ==> text == PartUnder(config, "vless"))
    && (inbound.kind == "vless" && inbound.tls.None? ==> Without("xtls-rprx-vision", PartUnder(config, "vless"), text))
    && (inbound.kind != "shadowsocks" && inbound.kind != "vless" ==> text == PartUnder(config, inbound.kind))
  }

  /** The kinds without users have none; ShadowTLS has some from version 3 on; any other inbound has exactly the
      enabled clients that refer to it. */
  ghost predicate Serves(l: Listener, t: Table, id: nat, inbound: Inbound) {
    var others := {"mixed", "socks", "http", "shadowsocks", "vmess", "trojan", "naive", "hysteria", "tuic", "hysteria2", "vless", "anytls"};
    && l.inbound == inbound
    && (inbound.kind != "shadowtls" && inbound.kind !in others ==> l.users == None)
    && (inbound.kind == "shadowtls" && inbound.version < 3 ==> l.users == Some(map[]))
    && (inbound.kind in others || (inbound.kind == "shadowtls" && inbound.version >= 3) ==>
        && l.users.Some?
        && (forall c :: c in l.users.value <==> c in t && t[c].enable && id in t[c].inbounds)
        && (forall c :: c in l.users.value ==> ServesUser(inbound, t[c].config, l.users.value[c])))
  }

  lemma {:induction false} CutIsWithout(word: string, text: string)
    requires word != ""
    ensures Without(word, text, Cut(word, text))
    decreases |text|
  {
    hide Cut;
    if k :| 0 <= k <= |text| && Occurs(word, text, k) {
      var first := FirstOccurrence(word, text, k);
      BeforeWord(word, text, first);
      var rest := text[first + |word|..];
      CutIsWithout(word, rest);
      var shown := Cut(word, text);
      assert shown[..first] == text[..first] && shown[first..] == Cut(word, rest);
      assert 0 <= first < |text| && WithoutFirst(word, text, shown, first);
    } else {
      NoWord(word, text);
    }
  }

  lemma FirstOccurrence(word: string, text: string, k: nat) returns (first: nat)
    requires Occurs(word, text, k)
    ensures first <= k && Occurs(word, text, first) && forall j :: 0 <= j < first ==> !Occurs(word, text, j)
  {
    hide Occurs;
    if j: nat :| j < k && Occurs(word, text, j) {
      first := FirstOccurrence(word, text, j);
    } else {
      first := k;
    }
  }

  lemma OccursInTail(word: string, text: string, j: nat)
    requires text != ""
    ensures Occurs(word, text[1..], j) <==> Occurs(word, text, j + 1)
  {
    if j + 1 + |word| <= |text| {
      assert text[1..][j..j + |word|] == text[j + 1..j + 1 + |word|];
    }
  }

  lemma OccursAtStart(word: string, text: string)
    ensures Occurs(word, text, 0) <==> word <= text
  {
  }

  lemma {:induction false} BeforeWord(word: string, text: string, k: nat)
    requires word != "" && Occurs(word, text, k) && forall j :: 0 <= j < k ==> !Occurs(word, text, j)
    ensures k + |word| <= |text|
    ensures Cut(word, text) == text[..k] + Cut(word, text[k + |word|..])
  {
    assert k + |word| <= |text|;
    hide Occurs;
    OccursAtStart(word, text);
    if k > 0 {
      var rest := text[1..];
      forall j: nat {
        OccursInTail(word, text, j);
      }
      BeforeWord(word, rest, k - 1);
      assert rest[k - 1 + |word|..] == text[k + |word|..];
      assert [text[0]] + rest[..k - 1] == text[..k];
    }
  }

  lemma {:induction false} NoWord(word: string, text: string)
    requires word != "" && forall j :: 0 <= j <= |text| ==> !Occurs(word, text, j)
    ensures Cut(word, text) == text
  {
    hide Occurs;
    if text != "" {
      OccursAtStart(word, text);
      forall j: nat {
        OccursInTail(word, text, j);
      }
      NoWord(word, text[1..]);
    }
  }

  /** There is one such text only. */
  lemma {:induction false} WithoutUnique(word: string, text: string, a: string, b: string)
    requires word != "" && Without(word, text, a) && Without(word, text, b)
    ensures a == b
    decreases |text|
  {
    if exists k :: 0 <= k <= |text| && Occurs(word, text, k) {
      var k := FirstWithout(word, text, a);
      var l := FirstWithout(word, text, b);
      assert k == l;
      WithoutUnique(word, text[k + |word|..], a[k..], b[k..]);
      assert a == a[..k] + a[k..] && b == b[..k] + b[k..];
    }
  }

  lemma FirstWithout(word: string, text: string, shown: string) returns (k: nat)
    requires word != "" && Without(word, text, shown) && exists k :: 0 <= k <= |text| && Occurs(word, text, k)
    ensures k < |text| && k + |word| <= |text| && Occurs(word, text, k) && forall j :: 0 <= j < k ==> !Occurs(word, text, j)
    ensures k <= |shown| && shown[..k] == text[..k] && Without(word, text[k + |word|..], shown[k..])
  {
    k :| 0 <= k < |text| && WithoutFirst(word, text, shown, k);
  }

  /** A word that occurs once is cut out. */
  lemma OneWordRemoved(word: string, a: string, b: string, shown: string)
    requires word != "" && Without(word, a + word + b, shown)
    requires forall k :: 0 <= k <= |a + word + b| && Occurs(word, a + word + b, k) ==> k == |a|
    ensures shown == a + b
  {
    hide Without;
    var text := a + word + b;
    assert text[|a|..|a| + |word|] == word && Occurs(word, text, |a|);
    var k := FirstWithout(word, text, shown);
    assert text[|a| + |word|..] == b && text[..|a|] == a;
    forall j: nat | j <= |b|
      ensures !Occurs(word, b, j)
    {
      OccursAfter(word, a + word, b, j);
    }
    AbsentStays(word, b, shown[k..]);
    assert shown == shown[..|a|] + shown[|a|..];
  }

  lemma OccursAfter(word: string, start: string, text: string, j: nat)
    ensures Occurs(word, text, j) ==> Occurs(word, start + text, |start| + j)
  {
    if j + |word| <= |text| {
      assert (start + text)[|start| + j..|start| + j + |word|] == text[j..j + |word|];
    }
  }

  lemma AbsentStays(word: string, text: string, shown: string)
    requires word != "" && Without(word, text, shown) && forall j :: 0 <= j <= |text| ==> !Occurs(word, text, j)
    ensures shown == text
  {
  }

  lemma RenderedServes(t: Table, id: nat, inbound: Inbound)
    ensures Serves(Rendered(t, id, inbound), t, id, inbound)
  {
    hide Cut, Without;
    forall c | c in t {
      CutIsWithout("xtls-rprx-vision", PartUnder(t[c].config, "vless"));
    }
  }

  /** `GetAllConfig` of the inbounds: one by one, in any order. */
  method GetAllInbounds(t: Table, inbounds: InboundTable) returns (running: Listeners)
    requires InboundTagsUnique(inbounds)
    ensures Shows(running, t, inbounds)
  {
    hide Rendered;
    running := map[];
    var todo := inbounds.Keys;
    while todo != {}
      invariant todo <= inbounds.Keys
      invariant forall i :: i in inbounds && i !in todo ==>
        inbounds[i].tag in running && running[inbounds[i].tag] == Rendered(t, i, inbounds[i])
      invariant forall tag :: tag in running ==> exists i :: i in inbounds && inbounds[i].tag == tag
    {
      var i :| i in todo;
      running := running[inbounds[i].tag := Rendered(t, i, inbounds[i])];
      todo := todo - {i};
    }
  }

  method GetAllOutbounds(outbounds: map<nat, Outbound>) returns (running: map<string, Outbound>)
    requires OutboundTagsUnique(outbounds)
    ensures ShowsOutbounds(running, outbounds)
  {
    running := map[];
    var todo := outbounds.Keys;
    while todo != {}
      invariant todo <= outbounds.Keys
      invariant forall i :: i in outbounds && i !in todo ==> outbounds[i].tag in running && running[outbounds[i].tag] == outbounds[i]
      invariant forall tag :: tag in running ==> exists i :: i in outbounds && outbounds[i].tag == tag
    {
      var i :| i in todo;
      running := running[outbounds[i].tag := outbounds[i]];
      todo := todo - {i};
    }
  }

  lemma ShownServes(running: Listeners, t: Table, inbounds: InboundTable, i: nat)
    requires Shows(running, t, inbounds) && i in inbounds
    ensures inbounds[i].tag in running && Serves(running[inbounds[i].tag], t, i, inbounds[i])
  {
    hide Serves, Rendered;
    RenderedServes(t, i, inbounds[i]);
  }

  /** `getConfigWithDB`; None stands for a query or decoding error. */
  method GetConfig(db: Database, reliable: bool) returns (c: Option<Config>)
    requires InboundTagsUnique(db.inbounds) && OutboundTagsUnique(db.tables.outbounds)
    ensures reliable ==> c.Some?
    ensures c.Some? ==> ShowsAll(c.value, db)
    ensures c.Some? ==> forall i :: i in db.inbounds ==>
      db.inbounds[i].tag in c.value.inbounds && Serves(c.value.inbounds[db.inbounds[i].tag], db.clients, i, db.inbounds[i])
  {
    hide Shows, ShowsOutbounds, Serves, Rendered;
    var fails: bool := *;
    if fails && !reliable {
      return None;
    }
    var inbounds := GetAllInbounds(db.clients, db.inbounds);
    var outbounds := GetAllOutbounds(db.tables.outbounds);
    forall i | i in db.inbounds
      ensures db.inbounds[i].tag in inbounds && Serves(inbounds[db.inbounds[i].tag], db.clients, i, db.inbounds[i])
    {
      ShownServes(inbounds, db.clients, db.inbounds, i);
    }
    c := Some(Config(db.base, inbounds, outbounds, db.tables.endpoints, db.tables.managed));
  }
}
