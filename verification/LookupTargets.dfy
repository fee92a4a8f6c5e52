/**
 The work list of address lookups (service/ip_info.go:156-263): the records on a page, each once, grouped by the
 address they ask for.
 */
module LookupTargets {
  import opened Strings

  class ConnectionIPInfo {
    var ip: string
    var host: string
    var address: string

    constructor (ip: string, host: string, address: string)
      ensures this.ip == ip && this.host == host && this.address == address
    {
      this.ip, this.host, this.address := ip, host, address;
    }

    /** `connectionInfoCacheKey`: what a lookup of the record is remembered under, empty if there is nothing to
        look up. */
    function CacheKey(): string
      reads this
    {
      if ip != "" then "ip:" + Lower(Trim(ip))
      else if host != "" then "host:" + Lower(Trim(host))
      else if Lower(Trim(address)) == "" then ""
      else "address:" + Lower(Trim(address))
    }
  }

  /** Two records are looked up together exactly if they name the same address, or no address and the same host, or
      neither and the same text, up to case and surrounding space; there is nothing to look up without any of them. */
  lemma SameLookup(a: ConnectionIPInfo, b: ConnectionIPInfo)
    ensures a.CacheKey() == "" <==> a.ip == "" && a.host == "" && Trim(a.address) == ""
    ensures a.CacheKey() == b.CacheKey() <==>
      if a.ip != "" || b.ip != "" then a.ip != "" && b.ip != "" && Lower(Trim(a.ip)) == Lower(Trim(b.ip))
      else if a.host != "" || b.host != "" then a.host != "" && b.host != "" && Lower(Trim(a.host)) == Lower(Trim(b.host))
      else Lower(Trim(a.address)) == Lower(Trim(b.address))
  {
    hide Lower, Trim;
    var x, y := a.CacheKey(), b.CacheKey();
    if x != "" && y != "" {
      assert x == y ==> x[0] == y[0];
      assert x[0] == 'i' ==> x[3..] == Lower(Trim(a.ip));
      assert y[0] == 'i' ==> y[3..] == Lower(Trim(b.ip));
      assert x[0] == 'h' ==> x[5..] == Lower(Trim(a.host));
      assert y[0] == 'h' ==> y[5..] == Lower(Trim(b.host));
      assert x[0] == 'a' ==> x[8..] == Lower(Trim(a.address));
      assert y[0] == 'a' ==> y[8..] == Lower(Trim(b.address));
    }
  }

  datatype Entry = NoEntry | Entry(destination: ConnectionIPInfo?, remote: ConnectionIPInfo?, source: ConnectionIPInfo?)

  /** One lookup and the records that wait for it. */
  datatype Target = Target(key: string, targets: seq<ConnectionIPInfo>)

  ghost function Pointed(info: ConnectionIPInfo?): (s: set<ConnectionIPInfo>) {
    if info == null then {} else {info}
  }

  ghost function RecordsOf(e: Entry): set<ConnectionIPInfo> {
    match e
    case NoEntry => {}
    case Entry(destination, remote, source) => Pointed(destination) + Pointed(remote) + Pointed(source)
  }

  /** The records on the page. */
  ghost function Records(entries: seq<Entry>): set<ConnectionIPInfo> {
    set i, r | 0 <= i < |entries| && r in RecordsOf(entries[i]) :: r
  }

  /** Every record of `seen` with a key is in exactly one place, a group holds the records of one key, and no two
      groups share a key. */
  ghost predicate Grouped(targets: seq<Target>, seen: set<ConnectionIPInfo>)
    reads seen
  {
    && (forall i, j :: 0 <= i < j < |targets| ==> targets[i].key != targets[j].key)
    && (forall i :: 0 <= i < |targets| ==> targets[i].key != "" && targets[i].targets != [])
    && (forall i, k :: 0 <= i < |targets| && 0 <= k < |targets[i].targets| ==>
        targets[i].targets[k] in seen && targets[i].targets[k].CacheKey() == targets[i].key)
    && (forall i, k, l :: 0 <= i < |targets| && 0 <= k < l < |targets[i].targets| ==> targets[i].targets[k] != targets[i].targets[l])
    && (forall r :: r in seen && r.CacheKey() != "" ==> exists i :: 0 <= i < |targets| && targets[i].key == r.CacheKey() && r in targets[i].targets)
  }

  ghost predicate Indexed(targets: seq<Target>, indexByKey: map<string, nat>) {
    && (forall k :: k in indexByKey ==> indexByKey[k] < |targets| && targets[indexByKey[k]].key == k)
    && (forall i :: 0 <= i < |targets| ==> targets[i].key in indexByKey)
  }

  /** The closure `add` with the three variables it changes. */
  method Add(info: ConnectionIPInfo?, targets: seq<Target>, indexByKey: map<string, nat>, seen: set<ConnectionIPInfo>)
    returns (targets': seq<Target>, indexByKey': map<string, nat>, seen': set<ConnectionIPInfo>)
    requires Grouped(targets, seen) && Indexed(targets, indexByKey)
    ensures seen' == seen + Pointed(info)
    ensures Grouped(targets', seen') && Indexed(targets', indexByKey')
  {
    targets', indexByKey', seen' := targets, indexByKey, seen;
    if info == null || info in seen {
      return;
    }
    seen' := seen + {info};
    var key := info.CacheKey();
    if key == "" {
      return;
    }
    if key in indexByKey {
      var index := indexByKey[key];
      targets' := targets[index := Target(key, targets[index].targets + [info])];
      GroupedWithMember(targets, seen, index, info);
    } else {
      indexByKey' := indexByKey[key := |targets|];
      targets' := targets + [Target(key, [info])];
      GroupedWithGroup(targets, seen, info);
    }
  }

  lemma GroupedWithMember(targets: seq<Target>, seen: set<ConnectionIPInfo>, index: nat, info: ConnectionIPInfo)
    requires Grouped(targets, seen) && index < |targets| && info !in seen && info.CacheKey() == targets[index].key
    ensures Grouped(targets[index := Target(targets[index].key, targets[index].targets + [info])], seen + {info})
  {
    var targets' := targets[index := Target(targets[index].key, targets[index].targets + [info])];
    forall r | r in seen + {info} && r.CacheKey() != ""
      ensures exists i :: 0 <= i < |targets'| && targets'[i].key == r.CacheKey() && r in targets'[i].targets
    {
      if r == info {
        assert targets'[index].key == r.CacheKey() && r in targets'[index].targets;
      } else {
        var i :| 0 <= i < |targets| && targets[i].key == r.CacheKey() && r in targets[i].targets;
        assert targets'[i].key == r.CacheKey() && r in targets'[i].targets;
      }
    }
  }

  lemma GroupedWithGroup(targets: seq<Target>, seen: set<ConnectionIPInfo>, info: ConnectionIPInfo)
    requires Grouped(targets, seen) && info !in seen && info.CacheKey() != ""
    requires forall i :: 0 <= i < |targets| ==> targets[i].key != info.CacheKey()
    ensures Grouped(targets + [Target(info.CacheKey(), [info])], seen + {info})
  {
    var targets' := targets + [Target(info.CacheKey(), [info])];
    forall r | r in seen + {info} && r.CacheKey() != ""
      ensures exists i :: 0 <= i < |targets'| && targets'[i].key == r.CacheKey() && r in targets'[i].targets
    {
      if r == info {
        assert targets'[|targets|].key == r.CacheKey() && r in targets'[|targets|].targets;
      } else {
        var i :| 0 <= i < |targets| && targets[i].key == r.CacheKey() && r in targets[i].targets;
        assert targets'[i] == targets[i];
      }
    }
  }

  /** The record that pass 0, 1 or 2 adds: destinations first, then remotes, then sources. */
  function Part(e: Entry, pass: nat): ConnectionIPInfo? {
    match e
    case NoEntry => null
    case Entry(destination, remote, source) => if pass == 0 then destination else if pass == 1 then remote else source
  }

  /** The records of the passes before this one, and of this one up to entry `i`. */
  ghost function RecordsUpTo(entries: seq<Entry>, pass: nat, i: nat): set<ConnectionIPInfo>
    requires i <= |entries|
  {
    set p, k, r | 0 <= p <= pass && 0 <= k < |entries| && (p < pass || k < i) && r in Pointed(Part(entries[k], p)) :: r
  }

  lemma NextRecord(entries: seq<Entry>, pass: nat, i: nat)
    requires i < |entries|
    ensures RecordsUpTo(entries, pass, i + 1) == RecordsUpTo(entries, pass, i) + Pointed(Part(entries[i], pass))
  {
  }

  lemma NextPass(entries: seq<Entry>, pass: nat)
    ensures RecordsUpTo(entries, pass + 1, 0) == RecordsUpTo(entries, pass, |entries|)
  {
    forall r | r in RecordsUpTo(entries, pass + 1, 0)
      ensures r in RecordsUpTo(entries, pass, |entries|)
    {
      var p, k :| 0 <= p <= pass + 1 && 0 <= k < |entries| && (p < pass + 1 || k < 0) && r in Pointed(Part(entries[k], p));
      assert p <= pass && (p < pass || k < |entries|);
    }
    forall r | r in RecordsUpTo(entries, pass, |entries|)
      ensures r in RecordsUpTo(entries, pass + 1, 0)
    {
      var p, k :| 0 <= p <= pass && 0 <= k < |entries| && (p < pass || k < |entries|) && r in Pointed(Part(entries[k], p));
      assert p <= pass + 1 && (p < pass + 1 || k < 0);
    }
  }

  lemma AllPasses(entries: seq<Entry>)
    ensures RecordsUpTo(entries, 3, 0) == Records(entries)
  {
    forall r | r in RecordsUpTo(entries, 3, 0)
      ensures r in Records(entries)
    {
      var p, k :| 0 <= p <= 3 && 0 <= k < |entries| && (p < 3 || k < 0) && r in Pointed(Part(entries[k], p));
      assert r in RecordsOf(entries[k]);
    }
    forall r | r in Records(entries)
      ensures r in RecordsUpTo(entries, 3, 0)
    {
      var k :| 0 <= k < |entries| && r in RecordsOf(entries[k]);
      assert r in Pointed(Part(entries[k], 0)) || r in Pointed(Part(entries[k], 1)) || r in Pointed(Part(entries[k], 2));
    }
  }

  /** Three passes over the page. */
  method CollectConnectionInfoTargets(entries: seq<Entry>) returns (targets: seq<Target>)
    ensures Grouped(targets, Records(entries))
  {
    hide Grouped, Indexed, Records, RecordsUpTo;
    targets := [];
    var indexByKey: map<string, nat> := map[];
    var seen: set<ConnectionIPInfo> := {};
    NothingGrouped();
    NoRecords(entries);
    for pass := 0 to 3
      invariant Grouped(targets, seen) && Indexed(targets, indexByKey)
      invariant seen == RecordsUpTo(entries, pass, 0)
    {
      for i := 0 to |entries|
        invariant Grouped(targets, seen) && Indexed(targets, indexByKey)
        invariant seen == RecordsUpTo(entries, pass, i)
      {
        NextRecord(entries, pass, i);
        targets, indexByKey, seen := Add(Part(entries[i], pass), targets, indexByKey, seen);
      }
      NextPass(entries, pass);
    }
    AllPasses(entries);
  }

  lemma NoRecords(entries: seq<Entry>)
    ensures RecordsUpTo(entries, 0, 0) == {}
  {
  }

  lemma NothingGrouped()
    ensures Grouped([], {}) && Indexed([], map[])
  {
  }

  /** A record with a key stands in one group only, and there once. */
  lemma ExactlyOnePlace(targets: seq<Target>, seen: set<ConnectionIPInfo>, r: ConnectionIPInfo, i: nat, k: nat, j: nat, l: nat)
    requires Grouped(targets, seen)
    requires i < |targets| && k < |targets[i].targets| && targets[i].targets[k] == r
    requires j < |targets| && l < |targets[j].targets| && targets[j].targets[l] == r
    ensures i == j && k == l
  {
  }
}
