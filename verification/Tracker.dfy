/**
 The byte counters of the running core (core/tracker_stats.go), as one goroutine sees them: counters are shared
 objects, a connection keeps adding to those it was given, and `GetStats` swaps each to zero.
 */
module Tracker {
  import opened TrafficStore

  /** What a counter counts for: the resource ("inbound", "outbound" or "user") and its tag. */
  datatype Key = Key(resource: string, tag: string)

  class Counter {
    var read: nat
    var write: nat

    constructor ()
      ensures read == 0 && write == 0
    {
      read, write := 0, 0;
    }

    function Counted(direction: bool): nat
      reads this
    {
      if direction then read else write
    }
  }

  class StatsTracker {
    /** The source's three maps, told apart by the resource. */
    var counters: map<Key, Counter>

    constructor ()
      ensures Valid() && counters == map[]
    {
      counters := map[];
    }

    /** No counter serves two keys. */
    ghost predicate Valid()
      reads this
    {
      forall k, l :: k in counters && l in counters && counters[k] == counters[l] ==> k == l
    }

    /** New connections get new counters; those given out before are no longer in the tables. */
    method Reset()
      modifies this
      ensures Valid() && counters == map[]
    {
      counters := map[];
    }

    method LoadOrCreateCounter(key: Key) returns (counter: Counter)
      requires Valid()
      modifies this
      ensures Valid() && key in counters && counters[key] == counter && counters == old(counters)[key := counter]
      ensures if key in old(counters) then counter == old(counters)[key] else fresh(counter) && counter.read == 0 && counter.write == 0
    {
      if key in counters {
        counter := counters[key];
        assert counters == counters[key := counter];
      } else {
        counter := new Counter();
        counters := counters[key := counter];
      }
    }

    /** The counters a new connection adds to: one for each tag that is not empty. Nothing in the tables changes
        but for new counters of those tags. */
    method GetReadCounters(inbound: string, outbound: string, user: string) returns (given: seq<Counter>)
      requires Valid()
      modifies this
      ensures Valid()
      ensures counters.Keys == old(counters).Keys + Keys(inbound, outbound, user)
      ensures forall k :: k in old(counters) ==> counters[k] == old(counters)[k]
      ensures forall k :: k in Keys(inbound, outbound, user) ==> k in counters && counters[k] in given
      ensures |given| == (if inbound != "" then 1 else 0) + (if outbound != "" then 1 else 0) + (if user != "" then 1 else 0)
    {
      hide KeyFor, Valid;
      var first := GiveCounter("inbound", inbound);
      var second := GiveCounter("outbound", outbound);
      var third := GiveCounter("user", user);
      given := first + second + third;
    }

    /** One of the three parts: nothing for an empty tag. */
    method GiveCounter(resource: string, tag: string) returns (given: seq<Counter>)
      requires Valid()
      modifies this
      ensures Valid()
      ensures counters.Keys == old(counters).Keys + KeyFor(resource, tag)
      ensures forall k :: k in old(counters) ==> counters[k] == old(counters)[k]
      ensures forall k :: k in KeyFor(resource, tag) ==> k in counters && counters[k] in given
      ensures |given| == if tag != "" then 1 else 0
    {
      given := [];
      if tag != "" {
        var counter := LoadOrCreateCounter(Key(resource, tag));
        given := [counter];
      }
    }

    /** The loop of `GetStats` over one resource. */
    method Drain(resource: string, rows: seq<Row>) returns (s: seq<Row>)
      requires Valid()
      modifies counters.Values
      ensures forall k :: k in counters && k.resource == resource ==> counters[k].read == 0 && counters[k].write == 0
      ensures forall k :: k in counters && k.resource != resource ==>
        counters[k].read == old(counters[k].read) && counters[k].write == old(counters[k].write)
      ensures forall k: Key, d ::
        Traffic(s, k.resource, k.tag, d) ==
        Traffic(rows, k.resource, k.tag, d) + (if k.resource == resource && k in counters then old(counters[k].Counted(d)) else 0)
    {
      hide Traffic, Valid;
      s := rows;
      var pending := set k | k in counters && k.resource == resource;
      while pending != {}
        invariant forall k :: k in pending ==> k in counters && k.resource == resource
        invariant forall k :: k in counters && (k in pending || k.resource != resource) ==>
          counters[k].read == old(counters[k].read) && counters[k].write == old(counters[k].write)
        invariant forall k :: k in counters && k !in pending && k.resource == resource ==> counters[k].read == 0 && counters[k].write == 0
        invariant forall k: Key, d ::
          Traffic(s, k.resource, k.tag, d) == Traffic(rows, k.resource, k.tag, d) +
          (if k.resource == resource && k in counters && k !in pending then old(counters[k].Counted(d)) else 0)
      {
        var key :| key in pending;
        assert key.resource == resource && forall d :: counters[key].Counted(d) == old(counters[key].Counted(d));
        ghost var before := s;
        ghost var read, write := counters[key].read, counters[key].write;
        ghost var held := (d: bool) => if d then read else write;
        s := DrainOne(key, s);
        forall k: Key, d
          ensures Traffic(s, k.resource, k.tag, d) == Traffic(rows, k.resource, k.tag, d) +
            (if k.resource == resource && k in counters && k !in pending - {key} then old(counters[k].Counted(d)) else 0)
        {
          assert Traffic(s, k.resource, k.tag, d) == Traffic(before, k.resource, k.tag, d) + (if k == key then held(d) else 0);
          assert held(d) == old(counters[key].Counted(d));
        }
        pending := pending - {key};
      }
    }

    /** One turn of the loop: no other counter is touched. */
    method DrainOne(key: Key, rows: seq<Row>) returns (s: seq<Row>)
      requires Valid() && key in counters
      modifies counters[key]
      ensures counters[key].read == 0 && counters[key].write == 0
      ensures forall k :: k in counters && k != key ==>
        counters[k].read == old(counters[k].read) && counters[k].write == old(counters[k].write)
      ensures forall k: Key, d ::
        Traffic(s, k.resource, k.tag, d) ==
        Traffic(rows, k.resource, k.tag, d) + (if k == key then (if d then old(counters[key].read) else old(counters[key].write)) else 0)
    {
      hide Traffic;
      s := Collect(counters[key], key, rows);
    }

    /** Every byte in a counter moves to the rows: for each tag and direction the rows hold exactly what the
        counter held, and all counters are zero. */
    method GetStats() returns (rows: seq<Row>)
      requires Valid()
      requires forall k :: k in counters ==> k.resource == "inbound" || k.resource == "outbound" || k.resource == "user"
      modifies counters.Values
      ensures forall k :: k in counters ==> counters[k].read == 0 && counters[k].write == 0
      ensures forall k: Key, d ::
        Traffic(rows, k.resource, k.tag, d) == if k in counters then old(counters[k].Counted(d)) else 0
    {
      rows := Drain("inbound", []);
      rows := Drain("outbound", rows);
      rows := Drain("user", rows);
    }
  }

  /** One turn of the loop: two atomic swaps, the write counter first, and a row for each direction unless both
      counters were zero. */
  method Collect(counter: Counter, key: Key, rows: seq<Row>) returns (s: seq<Row>)
    modifies counter
    ensures counter.read == 0 && counter.write == 0
    ensures forall k: Key, d ::
      Traffic(s, k.resource, k.tag, d) == Traffic(rows, k.resource, k.tag, d) +
      (if k == key then (if d then old(counter.read) else old(counter.write)) else 0)
  {
    hide Traffic;
    var down := counter.write;
    counter.write := 0;
    var up := counter.read;
    counter.read := 0;
    s := rows;
    if down > 0 || up > 0 {
      TrafficOfTwo(s, key, down, up);
      s := s + [Row(key.resource, key.tag, false, down)] + [Row(key.resource, key.tag, true, up)];
    }
  }

  /** What a connection is counted for. */
  function Keys(inbound: string, outbound: string, user: string): set<Key> {
    KeyFor("inbound", inbound) + KeyFor("outbound", outbound) + KeyFor("user", user)
  }

  function KeyFor(resource: string, tag: string): set<Key> {
    if tag != "" then {Key(resource, tag)} else {}
  }

  lemma TrafficOfTwo(rows: seq<Row>, key: Key, down: nat, up: nat)
    ensures forall k: Key, d ::
      Traffic(rows + [Row(key.resource, key.tag, false, down)] + [Row(key.resource, key.tag, true, up)], k.resource, k.tag, d) ==
      Traffic(rows, k.resource, k.tag, d) + (if k == key then (if d then up else down) else 0)
  {
    hide Traffic;
    var first, second := Row(key.resource, key.tag, false, down), Row(key.resource, key.tag, true, up);
    forall k: Key, d
      ensures Traffic(rows + [first] + [second], k.resource, k.tag, d) ==
        Traffic(rows, k.resource, k.tag, d) + (if k == key then (if d then up else down) else 0)
    {
      TrafficAppend(rows, first, k.resource, k.tag, d);
      TrafficAppend(rows + [first], second, k.resource, k.tag, d);
    }
  }
}
