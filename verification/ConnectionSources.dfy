/**
 Attaching client addresses to connection log rows (service/connections.go:161-228): rows that name a source are
 indexed by resource, protocol and tag, and each row that only names a destination takes the nearest in time.
 */
module ConnectionSources {
  import opened Strings
  import opened Wrappers

  datatype Entry = Entry(timestamp: int, resource: string, protocol: string, tag: string,
                         source: string, sourceInfo: string, destination: string, rest: string)

  const ATTACH_WINDOW := 10

  function Key(e: Entry): string {
    if e.resource == "" || e.protocol == "" || e.tag == "" then ""
    else Join([e.resource, e.protocol, e.tag], '\0')
  }

  function Abs(x: int): nat {
    if x < 0 then -x else x
  }

  function Delta(a: Entry, b: Entry): nat {
    Abs(a.timestamp - b.timestamp)
  }

  predicate WantsSource(e: Entry) {
    e.source == "" && e.destination != "" && e.resource == "inbound"
  }

  function WithSource(e: Entry, from: Entry): Entry {
    e.(source := from.source, sourceInfo := from.sourceInfo)
  }

  // ---------------------------------------------------------------- the reference: a scan over all rows

  /** Row `k` can lend its source to `e`. */
  predicate Lends(all: seq<Entry>, e: Entry, k: int) {
    0 <= k < |all| && all[k].source != "" && Key(e) != "" && Key(all[k]) == Key(e) && Delta(e, all[k]) <= ATTACH_WINDOW
  }

  /** The earliest of the nearest rows. */
  predicate EarliestNearest(all: seq<Entry>, e: Entry, k: int) {
    Lends(all, e, k) &&
    forall j :: 0 <= j < |all| && Lends(all, e, j) ==> Delta(e, all[k]) < Delta(e, all[j]) || (Delta(e, all[k]) == Delta(e, all[j]) && k <= j)
  }

  /** What `e` becomes among the rows `all`. */
  ghost predicate AttachedFrom(all: seq<Entry>, e: Entry, r: Entry) {
    if WantsSource(e) && exists k :: Lends(all, e, k)
    then exists k :: 0 <= k < |all| && EarliestNearest(all, e, k) && r == WithSource(e, all[k])
    else r == e
  }

  lemma EarliestNearestUnique(all: seq<Entry>, e: Entry, j: nat, k: nat)
    requires EarliestNearest(all, e, j) && EarliestNearest(all, e, k)
    ensures j == k
  {
  }

  lemma AttachedFromUnique(all: seq<Entry>, e: Entry, r: Entry, s: Entry)
    requires AttachedFrom(all, e, r) && AttachedFrom(all, e, s)
    ensures r == s
  {
    hide EarliestNearest, Lends;
    if WantsSource(e) && exists k :: Lends(all, e, k) {
      var j :| 0 <= j < |all| && EarliestNearest(all, e, j) && r == WithSource(e, all[j]);
      var k :| 0 <= k < |all| && EarliestNearest(all, e, k) && s == WithSource(e, all[k]);
      EarliestNearestUnique(all, e, j, k);
    }
  }

  /** A row that has a source, or names no destination, stays as it is; any other takes source and its details, and
      nothing else, from a row of the same resource, protocol and tag within ten seconds. */
  lemma AttachedFields(all: seq<Entry>, e: Entry, r: Entry)
    requires AttachedFrom(all, e, r)
    ensures e.source != "" || e.destination == "" || e.resource != "inbound" ==> r == e
    ensures r != e ==> exists k :: 0 <= k < |all| && Borrowed(e, all[k], r)
  {
    hide Key;
    if r != e {
      var k :| 0 <= k < |all| && EarliestNearest(all, e, k) && r == WithSource(e, all[k]);
      assert Borrowed(e, all[k], r);
    }
  }

  /** `r` is `e` with the source of `from`. */
  predicate Borrowed(e: Entry, from: Entry, r: Entry) {
    && from.source != "" && Key(from) == Key(e) != "" && -10 <= e.timestamp - from.timestamp <= 10
    && r == e.(source := from.source, sourceInfo := from.sourceInfo)
  }

  // ---------------------------------------------------------------- the index

  /** The rows indexed under a key, in order. */
  function Under(all: seq<Entry>, key: string): seq<Entry> {
    if all == [] then []
    else
      var last := all[|all| - 1];
      Under(all[..|all| - 1], key) + if last.source != "" && key != "" && Key(last) == key then [last] else []
  }

  /** The candidate the loop settles on: strictly nearer rows replace earlier ones. */
  function Nearest(candidates: seq<Entry>, e: Entry): Option<Entry> {
    if candidates == [] then None
    else
      var last := candidates[|candidates| - 1];
      var best := Nearest(candidates[..|candidates| - 1], e);
      if Delta(e, last) <= ATTACH_WINDOW && (best.None? || Delta(e, last) < Delta(e, best.value)) then Some(last) else best
  }

  lemma NearestOneMore(candidates: seq<Entry>, c: Entry, e: Entry)
    ensures var best := Nearest(candidates, e);
      Nearest(candidates + [c], e) ==
      if Delta(e, c) <= ATTACH_WINDOW && (best.None? || Delta(e, c) < Delta(e, best.value)) then Some(c) else best
  {
    assert (candidates + [c])[..|candidates|] == candidates;
  }

  /** `best` is what a scan of all rows ends with. */
  ghost predicate ScanEndsWith(all: seq<Entry>, e: Entry, best: Option<Entry>) {
    if best.None? then forall k :: 0 <= k < |all| ==> !Lends(all, e, k)
    else exists k :: 0 <= k < |all| && EarliestNearest(all, e, k) && all[k] == best.value
  }

  lemma LendsBefore(all: seq<Entry>, e: Entry)
    requires all != []
    ensures forall k :: 0 <= k < |all| - 1 ==> (Lends(all, e, k) <==> Lends(all[..|all| - 1], e, k))
    ensures forall k :: Lends(all, e, k) ==> 0 <= k < |all|
  {
  }

  lemma ScanOneMore(all: seq<Entry>, e: Entry, best: Option<Entry>)
    requires all != [] && ScanEndsWith(all[..|all| - 1], e, best)
    ensures ScanEndsWith(all, e,
              if Lends(all, e, |all| - 1) && (best.None? || Delta(e, all[|all| - 1]) < Delta(e, best.value))
              then Some(all[|all| - 1]) else best)
  {
    hide Lends, Delta;
    LendsBefore(all, e);
    var last := |all| - 1;
    var before := all[..last];
    if best.Some? {
      var k :| 0 <= k < |before| && EarliestNearest(before, e, k) && before[k] == best.value;
      if Lends(all, e, last) && Delta(e, all[last]) < Delta(e, best.value) {
        assert EarliestNearest(all, e, last);
      } else {
        assert EarliestNearest(all, e, k) && all[k] == best.value;
      }
    } else if Lends(all, e, last) {
      assert EarliestNearest(all, e, last);
    }
  }

  /** Looking only under the key of `e` finds what a scan over all rows finds. */
  lemma {:induction false} IndexedScan(all: seq<Entry>, e: Entry)
    ensures ScanEndsWith(all, e, Nearest(Under(all, Key(e)), e))
  {
    hide Key, EarliestNearest, Delta;
    if all != [] {
      var last := |all| - 1;
      var before := all[..last];
      IndexedScan(before, e);
      var best := Nearest(Under(before, Key(e)), e);
      ScanOneMore(all, e, best);
      if all[last].source != "" && Key(e) != "" && Key(all[last]) == Key(e) {
        NearestOneMore(Under(before, Key(e)), all[last], e);
      } else {
        assert Under(all, Key(e)) == Under(before, Key(e));
      }
    }
  }

  type Index = map<string, seq<Entry>>

  function Candidates(index: Index, key: string): seq<Entry> {
    if key in index then index[key] else []
  }

  method BuildConnectionSourceIndex(items: array<Entry>) returns (index: Index)
    ensures forall key :: Candidates(index, key) == Under(items[..], key)
  {
    hide Key;
    index := map[];
    for i := 0 to items.Length
      invariant forall key :: Candidates(index, key) == Under(items[..i], key)
    {
      var item := items[i];
      assert items[..i + 1][..i] == items[..i];
      var key := Key(item);
      if item.source == "" || key == "" {
        continue;
      }
      index := index[key := Candidates(index, key) + [item]];
    }
    assert items[..items.Length] == items[..];
  }

  method AttachConnectionSource(item: Entry, index: Index) returns (r: Entry)
    ensures r == if !WantsSource(item) then item
                 else var best := Nearest(Candidates(index, Key(item)), item);
                      if best.Some? then WithSource(item, best.value) else item
  {
    r := item;
    if item.source != "" || item.destination == "" || item.resource != "inbound" {
      return;
    }
    var candidates := Candidates(index, Key(item));
    var bestIndex, bestDelta := -1, ATTACH_WINDOW + 1;
    for i := 0 to |candidates|
      invariant -1 <= bestIndex < i
      invariant var best := Nearest(candidates[..i], item);
        if bestIndex < 0 then best.None? && bestDelta == ATTACH_WINDOW + 1
        else best == Some(candidates[bestIndex]) && bestDelta == Delta(item, candidates[bestIndex]) <= ATTACH_WINDOW
    {
      assert candidates[..i + 1] == candidates[..i] + [candidates[i]];
      NearestOneMore(candidates[..i], candidates[i], item);
      var delta := Abs(item.timestamp - candidates[i].timestamp);
      if delta > ATTACH_WINDOW || delta >= bestDelta {
        continue;
      }
      bestIndex, bestDelta := i, delta;
    }
    assert candidates[..|candidates|] == candidates;
    if bestIndex < 0 {
      return;
    }
    r := r.(source := candidates[bestIndex].source, sourceInfo := candidates[bestIndex].sourceInfo);
  }

  /** Every row is set from the rows as they were before any was changed, whatever the order of processing. */
  method AttachConnectionSources(items: array<Entry>)
    modifies items
    ensures forall i :: 0 <= i < items.Length ==> AttachedFrom(old(items[..]), old(items[i]), items[i])
  {
    hide AttachedFrom, Nearest, Under, Key;
    ghost var all := items[..];
    var index := BuildConnectionSourceIndex(items);
    for i := 0 to items.Length
      invariant forall k :: 0 <= k < i ==> AttachedFrom(all, old(items[k]), items[k])
      invariant forall k :: i <= k < items.Length ==> items[k] == old(items[k])
    {
      var r := AttachConnectionSource(items[i], index);
      IndexGivesAttached(all, items[i], r);
      items[i] := r;
    }
  }

  lemma IndexGivesAttached(all: seq<Entry>, e: Entry, r: Entry)
    requires r == if !WantsSource(e) then e
                  else var best := Nearest(Under(all, Key(e)), e);
                       if best.Some? then WithSource(e, best.value) else e
    ensures AttachedFrom(all, e, r)
  {
    hide Nearest, Under, Key, EarliestNearest;
    IndexedScan(all, e);
    if WantsSource(e) && Nearest(Under(all, Key(e)), e).Some? {
      var k :| 0 <= k < |all| && EarliestNearest(all, e, k) && all[k] == Nearest(Under(all, Key(e)), e).value;
      NearestLends(all, e, k);
    }
  }

  lemma NearestLends(all: seq<Entry>, e: Entry, k: nat)
    requires EarliestNearest(all, e, k)
    ensures Lends(all, e, k)
  {
  }

  // ---------------------------------------------------------------- what a key stands for

  predicate NulFree(e: Entry) {
    Free(e.resource, '\0') && Free(e.protocol, '\0') && Free(e.tag, '\0')
  }

  /** Without NUL in the parts, rows share a key exactly when they share resource, protocol and tag. */
  lemma SameKeySameParts(a: Entry, b: Entry)
    requires NulFree(a) && NulFree(b) && Key(a) != ""
    ensures Key(a) == Key(b) <==> a.resource == b.resource && a.protocol == b.protocol && a.tag == b.tag
  {
    JoinInjective([a.resource, a.protocol, a.tag], [b.resource, b.protocol, b.tag], '\0');
  }
}
