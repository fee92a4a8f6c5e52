/**
 Collected traffic and how it is stored (service/stats.go:26-93). Volumes are unbounded; the source's are 64-bit.
 */
module TrafficStore {
  import opened Clients
  import opened Wrappers

  /** A row of collected traffic; direction true is upload. */
  datatype Row = Row(resource: string, tag: string, direction: bool, traffic: nat)

  datatype Online = Online(inbounds: seq<string>, users: seq<string>, outbounds: seq<string>)

  /** The traffic the rows hold for one tag and direction. */
  function Traffic(rows: seq<Row>, resource: string, tag: string, direction: bool): nat {
    if rows == [] then 0
    else
      var last := rows[|rows| - 1];
      Traffic(rows[..|rows| - 1], resource, tag, direction) +
      if last.resource == resource && last.tag == tag && last.direction == direction then last.traffic else 0
  }

  lemma TrafficAppend(rows: seq<Row>, row: Row, resource: string, tag: string, direction: bool)
    ensures Traffic(rows + [row], resource, tag, direction) == Traffic(rows, resource, tag, direction) +
      if row.resource == resource && row.tag == tag && row.direction == direction then row.traffic else 0
  {
    assert (rows + [row])[..|rows|] == rows;
  }

  /** The client with the traffic of all rows of its name added. */
  function Paid(c: Client, rows: seq<Row>): Client {
    c.(up := c.up + Traffic(rows, "user", c.name, true), down := c.down + Traffic(rows, "user", c.name, false))
  }

  function PaidTable(t: Table, rows: seq<Row>): Table {
    map id | id in t :: Paid(t[id], rows)
  }

  /** The tags that uploaded anything at all: both rows of a tag are there or none. */
  function OnlineTags(rows: seq<Row>, resource: string): seq<string> {
    if rows == [] then []
    else
      var last := rows[|rows| - 1];
      OnlineTags(rows[..|rows| - 1], resource) + if last.direction && last.resource == resource then [last.tag] else []
  }

  lemma {:induction false} OnlineExactly(rows: seq<Row>, resource: string)
    ensures forall tag :: tag in OnlineTags(rows, resource) <==>
      exists k :: 0 <= k < |rows| && rows[k].direction && rows[k].resource == resource && rows[k].tag == tag
  {
    if rows != [] {
      OnlineExactly(rows[..|rows| - 1], resource);
    }
  }

  lemma NextRow(rows: seq<Row>, i: nat)
    requires i < |rows|
    ensures rows[..i + 1] == rows[..i] + [rows[i]]
    ensures forall resource ::
      OnlineTags(rows[..i + 1], resource) ==
      OnlineTags(rows[..i], resource) + (if rows[i].direction && rows[i].resource == resource then [rows[i].tag] else [])
  {
    assert rows[..i + 1][..i] == rows[..i];
  }

  /** `UPDATE clients SET up = up + ? WHERE name = ?`, or the same for `down`, on one row. */
  function Credited(c: Client, row: Row): Client {
    if row.resource != "user" || c.name != row.tag then c
    else if row.direction then c.(up := c.up + row.traffic)
    else c.(down := c.down + row.traffic)
  }

  lemma PaidNext(c: Client, rows: seq<Row>, row: Row)
    ensures Paid(c, rows + [row]) == Credited(Paid(c, rows), row)
  {
    hide Traffic;
    TrafficAppend(rows, row, "user", c.name, true);
    TrafficAppend(rows, row, "user", c.name, false);
  }

  method AddTraffic(t: Table, row: Row, ghost before: Table, ghost rows: seq<Row>) returns (r: Table)
    requires t == PaidTable(before, rows)
    ensures r == PaidTable(before, rows + [row])
  {
    hide Paid, Credited;
    r := map id | id in t :: Credited(t[id], row);
    forall id | id in before
      ensures Paid(before[id], rows + [row]) == Credited(t[id], row)
    {
      PaidNext(before[id], rows, row);
    }
  }

  class StatsService {
    /** No database operation fails of itself. */
    const reliable: bool
    var clients: Table
    var stats: seq<Row>
    var online: Online

    constructor (clients: Table, reliable: bool)
      ensures this.clients == clients && stats == [] && online == Online([], [], []) && this.reliable == reliable
    {
      this.clients, stats, online, this.reliable := clients, [], Online([], [], []), reliable;
    }

    /** `SaveStats` from the collected rows on. Everything is committed or nothing is; nothing collected only
        clears the online list. */
    method SaveStats(rows: seq<Row>, enableTraffic: bool) returns (ok: bool)
      modifies this
      ensures reliable ==> ok
      ensures ok ==>
        && clients == PaidTable(old(clients), rows)
        && stats == old(stats) + (if enableTraffic then rows else [])
        && online == Online(OnlineTags(rows, "inbound"), OnlineTags(rows, "user"), OnlineTags(rows, "outbound"))
      ensures ok ==>
        && (forall tag :: tag in online.inbounds <==> exists k :: 0 <= k < |rows| && rows[k].direction && rows[k].resource == "inbound" && rows[k].tag == tag)
        && (forall tag :: tag in online.users <==> exists k :: 0 <= k < |rows| && rows[k].direction && rows[k].resource == "user" && rows[k].tag == tag)
        && (forall tag :: tag in online.outbounds <==> exists k :: 0 <= k < |rows| && rows[k].direction && rows[k].resource == "outbound" && rows[k].tag == tag)
      ensures !ok ==> rows != [] && clients == old(clients) && stats == old(stats) && online == old(online)
    {
      OnlineExactly(rows, "inbound");
      OnlineExactly(rows, "user");
      OnlineExactly(rows, "outbound");
      var currentOnline := Online([], [], []);
      NothingPaid(clients);
      if rows == [] {
        online := currentOnline;
        return true;
      }
      var fails: bool := *;
      if fails && !reliable {
        return false;
      }
      var tx := clients;
      for i := 0 to |rows|
        invariant tx == PaidTable(old(clients), rows[..i])
        invariant currentOnline == Online(OnlineTags(rows[..i], "inbound"), OnlineTags(rows[..i], "user"), OnlineTags(rows[..i], "outbound"))
        invariant clients == old(clients) && stats == old(stats) && online == old(online)
      {
        var stat := rows[i];
        NextRow(rows, i);
        fails := *;
        if stat.resource == "user" && fails && !reliable {
          return false;
        }
        tx := AddTraffic(tx, stat, old(clients), rows[..i]);
        if stat.direction {
          if stat.resource == "inbound" {
            currentOnline := currentOnline.(inbounds := currentOnline.inbounds + [stat.tag]);
          } else if stat.resource == "outbound" {
            currentOnline := currentOnline.(outbounds := currentOnline.outbounds + [stat.tag]);
          } else if stat.resource == "user" {
            currentOnline := currentOnline.(users := currentOnline.users + [stat.tag]);
          }
        }
      }
      assert rows[..|rows|] == rows;
      fails := *;
      if fails && !reliable {
        return false;
      }
      clients := tx;
      stats := stats + if enableTraffic then rows else [];
      online := currentOnline;
      ok := true;
    }
  }

  lemma NothingPaid(t: Table)
    ensures PaidTable(t, []) == t
  {
    assert forall id :: id in t ==> Paid(t[id], []) == t[id];
  }

  /** Five bytes uploaded by one of two namesakes are credited to both. */
  lemma NamesakesBothCredited(c: Client)
    ensures var after := PaidTable(map[1 := c, 2 := c], [Row("user", c.name, true, 5)]);
      after[1].up == c.up + 5 && after[2].up == c.up + 5
  {
    TrafficAppend([], Row("user", c.name, true, 5), "user", c.name, true);
    assert [] + [Row("user", c.name, true, 5)] == [Row("user", c.name, true, 5)];
  }
}
