/**
 `normalizeAndValidateWireGuard` (service/wireguard.go:200-628) as it runs: one pass over the peers with
 growing lists of the keys, addresses, sites and runtime networks already taken. Its contract says that
 this pass accepts exactly the endpoints that WireGuardModel.Accepts describes pair by pair, rewrites
 them to their normal form, and blames the first peer that cannot be accepted with those before it.
 */
module WireGuardNormalizer {
  import opened Prefixes
  import opened Strings
  import opened Wrappers
  import opened WireGuardModel

  datatype Reject = BadEndpoint | BadPeer(index: nat)

  /** A runtime network and the index of the peer it was given to. */
  datatype Owned = Owned(prefix: Prefix, peerIndex: nat)

  datatype Seen = Seen(keys: set<string>, hosts: seq<Prefix>, sites: seq<Prefix>, runtime: seq<Owned>)

  function PrefixesIn(xs: seq<Owned>): (r: seq<Prefix>)
    ensures |r| == |xs|
  {
    seq(|xs|, i requires 0 <= i < |xs| => xs[i].prefix)
  }

  predicate Fresh(lib: Library, seen: Seen, p: Peer) {
    && p.publicKey !in seen.keys
    && Apart(seen.hosts, Assigned(lib, p))
    && Apart(seen.sites, Sites(lib, p))
    && Apart(PrefixesIn(seen.runtime), Runtime(lib, p))
  }

  /** `seen` after peer number `index` was taken in. */
  ghost predicate Grown(lib: Library, seen: Seen, p: Peer, index: nat, seen': Seen) {
    && seen'.keys == seen.keys + {p.publicKey}
    && seen'.hosts == seen.hosts + Assigned(lib, p)
    && seen'.sites == seen.sites + Sites(lib, p)
    && TookIn(seen.runtime, Runtime(lib, p), index, seen'.runtime)
  }

  // ---------------------------------------------------------------- helper loops

  method SameStringSet(left: seq<string>, right: seq<string>) returns (same: bool)
    ensures same <==> SameTexts(left, right)
  {
    hide Trim;
    ghost var l, r := TrimAll(left), TrimAll(right);
    if |left| != |right| {
      assert |multiset(l)| == |left| && |multiset(r)| == |right|;
      return false;
    }
    var values: multiset<string> := multiset{};
    for i := 0 to |left|
      invariant values == multiset(l[..i])
    {
      assert l[..i + 1] == l[..i] + [l[i]];
      values := values + multiset{Trim(left[i])};
    }
    assert l[..|left|] == l;
    for i := 0 to |right|
      invariant values + multiset(r[..i]) == multiset(l)
    {
      assert r[..i + 1] == r[..i] + [r[i]];
      var key := Trim(right[i]);
      if values[key] == 0 {
        PrefixTooLarge(r, i + 1, multiset(l), key);
        return false;
      }
      values := values - multiset{key};
    }
    assert r[..|right|] == r;
    assert |values| == 0;
    return true;
  }

  lemma PrefixTooLarge(r: seq<string>, n: nat, l: multiset<string>, key: string)
    requires n <= |r| && multiset(r[..n])[key] > l[key]
    ensures multiset(r) != l
  {
    assert r == r[..n] + r[n..];
    assert multiset(r) == multiset(r[..n]) + multiset(r[n..]);
  }

  method CheckAddresses(lib: Library, e: Endpoint) returns (ok: bool, seen: set<Addr>)
    ensures ok <==> AddressesOk(lib, e, e.address)
    ensures ok ==> seen == EndpointAddrs(lib, e.address)
  {
    hide AddressOk, PrefixOf, AddrOf;
    seen := {};
    for i := 0 to |e.address|
      invariant AddressesOk(lib, e, e.address[..i])
      invariant seen == EndpointAddrs(lib, e.address[..i])
    {
      var text := e.address[i];
      assert e.address[..i + 1] == e.address[..i] + [text];
      if !AddressOk(lib, e, text) {
        return false, {};
      }
      var addr := AddrOf(PrefixOf(lib, text));
      if addr in seen {
        var j :| 0 <= j < i && AddrOf(PrefixOf(lib, e.address[..i][j])) == addr;
        assert AddrOf(PrefixOf(lib, e.address[j])) == AddrOf(PrefixOf(lib, e.address[i]));
        return false, {};
      }
      seen := seen + {addr};
    }
    assert e.address[..|e.address|] == e.address;
    ok := true;
  }

  method InferSlots(lib: Library, p: Peer) returns (slot4: string, slot6: string)
    requires Lawful(lib)
    ensures (slot4, slot6) == Slots(lib, p)
  {
    slot4, slot6 := p.assigned4, p.assigned6;
    if slot4 == "" && slot6 == "" {
      var xs := p.serverAllowed + p.allowed;
      for i := 0 to |xs|
        invariant FirstHost(lib, xs, V4) == if slot4 != "" then slot4 else FirstHost(lib, xs[i..], V4)
        invariant FirstHost(lib, xs, V6) == if slot6 != "" then slot6 else FirstHost(lib, xs[i..], V6)
      {
        assert xs[i..][0] == xs[i] && xs[i..][1..] == xs[i + 1..];
        if Parses(lib, xs[i]) && IsHost(PrefixOf(lib, xs[i])) {
          var q := PrefixOf(lib, xs[i]);
          if q.family == V4 && slot4 == "" {
            slot4 := lib.printPrefix(q);
          }
          if q.family == V6 && slot6 == "" {
            slot6 := lib.printPrefix(q);
          }
        }
      }
    }
  }

  /** The first prefix in `seen` that overlaps `q`, if any. */
  method Clashes(seen: seq<Prefix>, q: Prefix) returns (clash: bool)
    ensures !clash <==> Apart(seen, [q])
  {
    for i := 0 to |seen|
      invariant Apart(seen[..i], [q])
    {
      assert seen[..i + 1] == seen[..i] + [seen[i]];
      if Overlaps(seen[i], q) {
        assert seen[i] in seen && q in [q];
        return true;
      }
    }
    assert seen[..|seen|] == seen;
    clash := false;
  }

  /** One more element taken: what was apart stays apart exactly when the new one clashes with nothing. */
  lemma TakenOne(seen: seq<Prefix>, before: seq<Prefix>, q: Prefix)
    requires Apart(seen, before) && SelfApart(before)
    ensures Apart(seen + before, [q]) <==> Apart(seen, before + [q]) && SelfApart(before + [q])
  {
    hide Overlaps;
    var after := before + [q];
    if Apart(seen + before, [q]) {
      forall i, j | 0 <= i < j < |after|
        ensures !Overlaps(after[i], after[j])
      {
        assert after[i] in seen + before && q in [q];
      }
    } else {
      var o :| o in seen + before && Overlaps(o, q);
      if o in seen {
        assert q in after;
      } else {
        var k :| 0 <= k < |before| && before[k] == o;
        assert after[k] == o && after[|before|] == q;
      }
    }
  }

  lemma HostsOfTwoFamiliesApart(ps: seq<Prefix>)
    requires forall i, j :: 0 <= i < j < |ps| ==> ps[i].family != ps[j].family
    ensures SelfApart(ps)
  {
  }

  /** A clash among the first elements is a clash of the whole list. */
  lemma PrefixOfApart(seen: seq<Prefix>, ps: seq<Prefix>, n: nat)
    requires n <= |ps| && Apart(seen, ps) && SelfApart(ps)
    ensures Apart(seen, ps[..n]) && SelfApart(ps[..n])
  {
    hide Overlaps;
    assert forall p :: p in ps[..n] ==> p in ps;
  }

  method CheckAssigned(lib: Library, e: Endpoint, p: Peer, taken: set<Addr>, seen: seq<Prefix>)
    returns (ok: bool, seen': seq<Prefix>, assigned4: string, assigned6: string)
    requires Lawful(lib) && taken == EndpointAddrs(lib, e.address)
    ensures ok <==> AssignedOk(lib, e, p) && Apart(seen, Assigned(lib, p))
    ensures ok ==> seen' == seen + Assigned(lib, p)
    ensures ok ==> assigned4 == SlotAfter(lib, Assigned(lib, p), V4, p.assigned4)
    ensures ok ==> assigned6 == SlotAfter(lib, Assigned(lib, p), V6, p.assigned6)
  {
    hide Overlaps, Masked, Contains, AssignedTextOk, Slots, KeyMode, EndpointAddrs, SlotAfter;
    var slot4, slot6 := InferSlots(lib, p);
    var xs := (if slot4 == "" then [] else [slot4]) + (if slot6 == "" then [] else [slot6]);
    if KeyMode(p) == "generated_client" && xs == [] {
      return false, seen, p.assigned4, p.assigned6;
    }
    ok, seen', assigned4, assigned6 := TakeHosts(lib, e, xs, seen, p.assigned4, p.assigned6);
    if ok {
      HostsOfTwoFamiliesApart(Assigned(lib, p));
    }
  }

  lemma SlotOneMore(lib: Library, ps: seq<Prefix>, i: nat, family: Family, before: string)
    requires i < |ps|
    ensures SlotAfter(lib, ps[..i + 1], family, before) ==
            if ps[i].family == family then lib.printPrefix(ps[i]) else SlotAfter(lib, ps[..i], family, before)
  {
    assert ps[..i + 1][..i] == ps[..i];
  }

  lemma SlotNothing(lib: Library, before4: string, before6: string)
    ensures SlotAfter(lib, [], V4, before4) == before4 && SlotAfter(lib, [], V6, before6) == before6
  {
  }

  method TakeHosts(lib: Library, e: Endpoint, xs: seq<string>, seen: seq<Prefix>, before4: string, before6: string)
    returns (ok: bool, seen': seq<Prefix>, assigned4: string, assigned6: string)
    ensures ok <==>
      && (forall k :: 0 <= k < |xs| ==> AssignedTextOk(lib, e, xs[k]))
      && (forall j, k :: 0 <= j < k < |xs| ==> PrefixOf(lib, xs[j]).family != PrefixOf(lib, xs[k]).family)
      && Apart(seen, PrefixesOf(lib, xs))
    ensures ok ==> seen' == seen + PrefixesOf(lib, xs)
    ensures ok ==> assigned4 == SlotAfter(lib, PrefixesOf(lib, xs), V4, before4)
    ensures ok ==> assigned6 == SlotAfter(lib, PrefixesOf(lib, xs), V6, before6)
  {
    hide Overlaps, Masked, Contains, AssignedTextOk, PrefixOf, SlotAfter;
    ghost var ps := PrefixesOf(lib, xs);
    seen', assigned4, assigned6 := seen, before4, before6;
    SlotNothing(lib, before4, before6);
    var families: set<Family> := {};
    for i := 0 to |xs|
      invariant forall k :: 0 <= k < i ==> AssignedTextOk(lib, e, xs[k])
      invariant forall j, k :: 0 <= j < k < i ==> PrefixOf(lib, xs[j]).family != PrefixOf(lib, xs[k]).family
      invariant forall f :: f in families <==> exists k :: 0 <= k < i && PrefixOf(lib, xs[k]).family == f
      invariant Apart(seen, ps[..i])
      invariant seen' == seen + ps[..i]
      invariant assigned4 == SlotAfter(lib, ps[..i], V4, before4)
      invariant assigned6 == SlotAfter(lib, ps[..i], V6, before6)
    {
      var q := PrefixOf(lib, xs[i]);
      assert ps[..i + 1] == ps[..i] + [q];
      if !AssignedTextOk(lib, e, xs[i]) || q.family in families {
        return false, seen, before4, before6;
      }
      HostsOfTwoFamiliesApart(ps[..i + 1]);
      var clash := Clashes(seen', q);
      TakenOne(seen, ps[..i], q);
      if clash {
        assert !Apart(seen, ps) by {
          assert forall o :: o in ps[..i + 1] ==> o in ps;
        }
        return false, seen, before4, before6;
      }
      SlotOneMore(lib, ps, i, V4, before4);
      SlotOneMore(lib, ps, i, V6, before6);
      if q.family == V4 {
        assigned4 := lib.printPrefix(q);
      } else {
        assigned6 := lib.printPrefix(q);
      }
      families := families + {q.family};
      seen' := seen' + [q];
    }
    assert ps[..|xs|] == ps;
    ok := true;
  }

  method CheckSites(lib: Library, e: Endpoint, p: Peer, seen: seq<Prefix>) returns (ok: bool, seen': seq<Prefix>)
    ensures ok <==> SitesOk(lib, e, p) && Apart(seen, Sites(lib, p))
    ensures ok ==> seen' == seen + Sites(lib, p)
  {
    hide Overlaps, Apart, SelfApart, SiteOk, OutsideTunnels, Role, PrefixOf, PrefixesOf;
    if (Role(p) == "site_gateway") != (p.remoteSites != []) {
      return false, seen;
    }
    ok, seen' := TakeSites(lib, e, p.remoteSites, seen);
    if !ok {
      return false, seen;
    }
    for i := 0 to |p.localSites|
      invariant forall k :: 0 <= k < i ==> SiteOk(lib, p.localSites[k])
    {
      if !SiteOk(lib, p.localSites[i]) {
        return false, seen;
      }
    }
  }

  method TakeSites(lib: Library, e: Endpoint, xs: seq<string>, seen: seq<Prefix>)
    returns (ok: bool, seen': seq<Prefix>)
    ensures ok <==>
      && (forall k :: 0 <= k < |xs| ==> SiteOk(lib, xs[k]) && OutsideTunnels(lib, e, PrefixOf(lib, xs[k])))
      && SelfApart(PrefixesOf(lib, xs)) && Apart(seen, PrefixesOf(lib, xs))
    ensures ok ==> seen' == seen + PrefixesOf(lib, xs)
  {
    hide Overlaps, Apart, SelfApart, SiteOk, OutsideTunnels, PrefixOf;
    ghost var ps := PrefixesOf(lib, xs);
    seen' := seen;
    NothingTaken(seen);
    for i := 0 to |xs|
      invariant forall k :: 0 <= k < i ==> SiteOk(lib, xs[k]) && OutsideTunnels(lib, e, PrefixOf(lib, xs[k]))
      invariant SelfApart(ps[..i]) && Apart(seen, ps[..i])
      invariant seen' == seen + ps[..i]
    {
      var q := PrefixOf(lib, xs[i]);
      assert ps[..i + 1] == ps[..i] + [q];
      if !SiteOk(lib, xs[i]) || !OutsideTunnels(lib, e, q) {
        return false, seen;
      }
      var clash := Clashes(seen', q);
      TakenOne(seen, ps[..i], q);
      if clash {
        if Apart(seen, ps) && SelfApart(ps) {
          PrefixOfApart(seen, ps, i + 1);
        }
        return false, seen;
      }
      seen' := seen' + [q];
    }
    assert ps[..|xs|] == ps;
    ok := true;
  }

  lemma NothingTaken(seen: seq<Prefix>)
    ensures Apart(seen, []) && SelfApart([])
  {
  }

  method InferPreset(lib: Library, p: Peer, hosts: seq<string>) returns (preset: string)
    requires hosts == Printed(lib, Assigned(lib, p))
    ensures preset == RuntimePreset(lib, p)
  {
    preset := p.runtimePreset;
    if preset == "" {
      var xs := p.runtimeAllowed;
      if xs == [] {
        xs := p.serverAllowed + p.allowed;
      }
      preset := "custom";
      for i := 0 to |xs|
        invariant preset == "custom"
        invariant forall k :: 0 <= k < i ==> !(Parses(lib, xs[k]) && PrefixOf(lib, xs[k]).bits == 0)
      {
        if Parses(lib, xs[i]) && PrefixOf(lib, xs[i]).bits == 0 {
          preset := "full_tunnel";
          break;
        }
      }
      var same := SameStringSet(xs, hosts);
      if xs == [] || same {
        preset := "peer_addresses";
      } else if Role(p) == "site_gateway" && p.remoteSites != [] {
        preset := "remote_networks";
      }
    }
  }

  lemma PrintsApart(lib: Library, p: Prefix, q: Prefix)
    requires Lawful(lib)
    ensures lib.printPrefix(p) == lib.printPrefix(q) <==> p == q
  {
    assert lib.parsePrefix(lib.printPrefix(p)) == Some(p);
    assert lib.parsePrefix(lib.printPrefix(q)) == Some(q);
  }

  /** `seen'` is `seen` with the networks `ps` of peer `index` added. */
  ghost predicate TookIn(seen: seq<Owned>, ps: seq<Prefix>, index: nat, seen': seq<Owned>) {
    && (forall o :: o in seen ==> o in seen')
    && (forall o :: o in seen' ==> o in seen || (o.peerIndex == index && o.prefix in ps))
    && (forall q :: q in ps ==> Owned(q, index) in seen')
  }

  lemma InPrefixes(xs: seq<Owned>, q: Prefix)
    ensures q in PrefixesIn(xs) <==> exists o :: o in xs && o.prefix == q
  {
    if q in PrefixesIn(xs) {
      var k :| 0 <= k < |xs| && PrefixesIn(xs)[k] == q;
      assert xs[k] in xs;
    }
    if o :| o in xs && o.prefix == q {
      var k :| 0 <= k < |xs| && xs[k] == o;
      assert PrefixesIn(xs)[k] == q;
    }
  }

  /** Entries of this peer are skipped, so a clash is a clash with an earlier peer. */
  lemma ClashIsWithEarlier(seen: seq<Owned>, ps: seq<Prefix>, index: nat, seen': seq<Owned>, q: Prefix)
    requires forall o :: o in seen ==> o.peerIndex < index
    requires TookIn(seen, ps, index, seen')
    ensures (exists o :: o in seen' && o.peerIndex != index && Overlaps(o.prefix, q)) <==>
            !Apart(PrefixesIn(seen), [q])
  {
    hide Overlaps;
    forall p: Prefix {
      InPrefixes(seen, p);
    }
    if o :| o in seen' && o.peerIndex != index && Overlaps(o.prefix, q) {
      assert o.prefix in PrefixesIn(seen) && q in [q];
    }
  }

  lemma ApartOneMore(seen: seq<Prefix>, ps: seq<Prefix>, q: Prefix)
    ensures Apart(seen, ps + [q]) <==> Apart(seen, ps) && Apart(seen, [q])
  {
    hide Overlaps;
    assert forall p :: p in ps + [q] <==> p in ps || p in [q];
  }

  lemma ApartShorter(seen: seq<Prefix>, ps: seq<Prefix>, n: nat)
    requires n <= |ps| && Apart(seen, ps)
    ensures Apart(seen, ps[..n])
  {
    hide Overlaps;
    assert forall p :: p in ps[..n] ==> p in ps;
  }

  /** A text already printed stands for a network already recorded. */
  lemma PrintedMeansTaken(lib: Library, ps: seq<Prefix>, q: Prefix)
    requires Lawful(lib)
    ensures lib.printPrefix(q) in Printed(lib, ps) <==> q in ps
  {
    if lib.printPrefix(q) in Printed(lib, ps) {
      var k :| 0 <= k < |ps| && Printed(lib, ps)[k] == lib.printPrefix(q);
      PrintsApart(lib, ps[k], q);
    }
    if q in ps {
      var k :| 0 <= k < |ps| && ps[k] == q;
      assert Printed(lib, ps)[k] == lib.printPrefix(q);
    }
  }

  method CheckRuntimeTexts(lib: Library, xs: seq<string>, preset: string, index: nat, seen: seq<Owned>)
    returns (ok: bool, normal: seq<string>, seen': seq<Owned>)
    requires Lawful(lib)
    requires forall o :: o in seen ==> o.peerIndex < index
    ensures ok <==>
      && (forall k :: 0 <= k < |xs| ==> Parses(lib, xs[k]))
      && (forall k :: 0 <= k < |xs| ==> PrefixOf(lib, xs[k]).bits == 0 ==> preset == "full_tunnel")
      && Apart(PrefixesIn(seen), MaskedAll(PrefixesOf(lib, xs)))
    ensures ok ==> normal == Distinct(Printed(lib, MaskedAll(PrefixesOf(lib, xs))))
    ensures ok ==> TookIn(seen, MaskedAll(PrefixesOf(lib, xs)), index, seen')
  {
    hide Overlaps, Masked, Parses, PrefixOf, Apart, Lawful, PrefixesIn, TookIn, Distinct;
    ghost var ps := MaskedAll(PrefixesOf(lib, xs));
    ghost var texts := Printed(lib, ps);
    normal, seen' := [], seen;
    NothingTookIn(seen, index);
    for i := 0 to |xs|
      invariant forall k :: 0 <= k < i ==> Parses(lib, xs[k])
      invariant forall k :: 0 <= k < i ==> PrefixOf(lib, xs[k]).bits == 0 ==> preset == "full_tunnel"
      invariant Apart(PrefixesIn(seen), ps[..i])
      invariant normal == Distinct(texts[..i])
      invariant TookIn(seen, ps[..i], index, seen')
    {
      if !Parses(lib, xs[i]) {
        return false, [], seen;
      }
      var q := Masked(PrefixOf(lib, xs[i]));
      assert q.bits == PrefixOf(lib, xs[i]).bits by {
        MaskedSound(PrefixOf(lib, xs[i]));
      }
      assert ps[..i + 1] == ps[..i] + [q];
      if q.bits == 0 && preset != "full_tunnel" {
        return false, [], seen;
      }
      var clash := ClashesWithOthers(seen', q, index);
      ClashIsWithEarlier(seen, ps[..i], index, seen', q);
      ApartOneMore(PrefixesIn(seen), ps[..i], q);
      if clash {
        if Apart(PrefixesIn(seen), ps) {
          ApartShorter(PrefixesIn(seen), ps, i + 1);
        }
        return false, [], seen;
      }
      assert texts[..i] == Printed(lib, ps[..i]) && texts[..i + 1] == Printed(lib, ps[..i] + [q]);
      normal, seen' := RecordText(lib, seen, ps[..i], q, index, normal, seen');
    }
    assert ps[..|xs|] == ps && texts[..|xs|] == texts;
    ok := true;
  }

  /** A network is recorded with its text unless the text is there already. */
  method RecordText(lib: Library, ghost seen: seq<Owned>, ghost ps: seq<Prefix>, q: Prefix, index: nat, normal: seq<string>, taken: seq<Owned>)
    returns (normal': seq<string>, taken': seq<Owned>)
    requires Lawful(lib) && normal == Distinct(Printed(lib, ps)) && TookIn(seen, ps, index, taken)
    ensures normal' == Distinct(Printed(lib, ps + [q])) && TookIn(seen, ps + [q], index, taken')
  {
    hide Lawful, TookIn, Distinct;
    normal', taken' := normal, taken;
    var text := lib.printPrefix(q);
    ghost var texts := Printed(lib, ps + [q]);
    assert texts[..|ps|] == Printed(lib, ps) && texts[..|ps| + 1] == texts && texts[|ps|] == text;
    PrintedMeansTaken(lib, ps, q);
    TookInOneMore(seen, ps, index, taken, q);
    DistinctOneMore(texts, |ps|);
    if text !in normal {
      normal' := normal + [text];
      taken' := taken + [Owned(q, index)];
    }
  }

  lemma NothingTookIn(seen: seq<Owned>, index: nat)
    ensures Distinct([]) == []
    ensures Apart(PrefixesIn(seen), []) && TookIn(seen, [], index, seen)
  {
  }

  lemma TookInOneMore(seen: seq<Owned>, ps: seq<Prefix>, index: nat, seen': seq<Owned>, q: Prefix)
    requires TookIn(seen, ps, index, seen')
    ensures TookIn(seen, ps + [q], index, seen' + [Owned(q, index)])
    ensures q in ps ==> TookIn(seen, ps + [q], index, seen')
  {
  }

  lemma DistinctOneMore(xs: seq<string>, i: nat)
    requires i < |xs|
    ensures Distinct(xs[..i + 1]) == if xs[i] in Distinct(xs[..i]) then Distinct(xs[..i]) else Distinct(xs[..i]) + [xs[i]]
  {
    assert xs[..i + 1][..i] == xs[..i];
  }

  method ClashesWithOthers(seen: seq<Owned>, q: Prefix, index: nat) returns (clash: bool)
    ensures clash <==> exists o :: o in seen && o.peerIndex != index && Overlaps(o.prefix, q)
  {
    hide Overlaps;
    for j := 0 to |seen|
      invariant forall k :: 0 <= k < j ==> !(seen[k].peerIndex != index && Overlaps(seen[k].prefix, q))
    {
      if seen[j].peerIndex != index && Overlaps(seen[j].prefix, q) {
        assert seen[j] in seen;
        return true;
      }
    }
    clash := false;
  }

  method CheckCoverage(lib: Library, sites: seq<Prefix>, ps: seq<Prefix>, normal: seq<string>) returns (ok: bool)
    requires Lawful(lib)
    requires normal == Distinct(Printed(lib, ps))
    ensures ok <==> forall i :: 0 <= i < |sites| ==> CoveredBy(sites[i], ps)
  {
    hide Covers, CoveredBy, Distinct, Printed, PrefixOf;
    for i := 0 to |sites|
      invariant forall k :: 0 <= k < i ==> CoveredBy(sites[k], ps)
    {
      var covered := false;
      for j := 0 to |normal|
        invariant !covered
        invariant forall k :: 0 <= k < j ==> !Covers(PrefixOf(lib, normal[k]), sites[i])
      {
        if Covers(PrefixOf(lib, normal[j]), sites[i]) {
          covered := true;
          break;
        }
      }
      CoverageOfNormal(lib, ps, normal, sites[i]);
      if !covered {
        return false;
      }
    }
    ok := true;
  }

  /** Printing and dropping duplicates loses no network. */
  lemma CoverageOfNormal(lib: Library, ps: seq<Prefix>, normal: seq<string>, site: Prefix)
    requires Lawful(lib) && normal == Distinct(Printed(lib, ps))
    ensures CoveredBy(site, ps) <==> exists k :: 0 <= k < |normal| && Covers(PrefixOf(lib, normal[k]), site)
  {
    if CoveredBy(site, ps) {
      var i :| 0 <= i < |ps| && Covers(ps[i], site);
      assert Printed(lib, ps)[i] in Printed(lib, ps);
      var k :| 0 <= k < |normal| && normal[k] == Printed(lib, ps)[i];
      assert Covers(PrefixOf(lib, normal[k]), site);
    }
    if k :| 0 <= k < |normal| && Covers(PrefixOf(lib, normal[k]), site) {
      assert normal[k] in normal;
      var i :| 0 <= i < |ps| && Printed(lib, ps)[i] == normal[k];
      assert Covers(ps[i], site);
    }
  }

  lemma ChosenNone(lib: Library, include4: bool, include6: bool)
    ensures Chosen(lib, [], include4, include6) == []
  {
  }

  lemma ChosenOneMore(lib: Library, xs: seq<string>, i: nat, include4: bool, include6: bool)
    requires i < |xs|
    ensures var q := PrefixOf(lib, xs[i]);
      Chosen(lib, xs[..i + 1], include4, include6) == Chosen(lib, xs[..i], include4, include6) +
      if (q.family == V4 && include4) || (q.family == V6 && include6) then [lib.printPrefix(q)] else []
  {
    assert xs[..i + 1][..i] == xs[..i];
  }

  method ClientRoutes(lib: Library, e: Endpoint, p: Peer) returns (ok: bool, routes: seq<string>)
    ensures ok <==> ClientOk(lib, e, p)
    ensures ok ==> routes == ClientNormal(lib, e, p)
  {
    hide Chosen, ClientTextOk, Include4, Include6, ClientBase, ClientPreset, PrefixOf;
    var include4, include6 := Include4(lib, p), Include6(lib, p);
    if !include4 && !include6 {
      return false, [];
    }
    if ClientPreset(p) !in ["virtual_network", "single_peer", "custom", "full_tunnel"] || ClientBase(lib, e, p) == [] {
      return false, [];
    }
    var xs := ClientTexts(lib, e, p);
    routes := [];
    ChosenNone(lib, include4, include6);
    for i := 0 to |xs|
      invariant forall k :: 0 <= k < i ==> ClientTextOk(lib, p, xs[k])
      invariant routes == Chosen(lib, xs[..i], include4, include6)
    {
      if !ClientTextOk(lib, p, xs[i]) {
        return false, [];
      }
      var q := PrefixOf(lib, xs[i]);
      ChosenOneMore(lib, xs, i, include4, include6);
      if (q.family == V4 && include4) || (q.family == V6 && include6) {
        routes := routes + [lib.printPrefix(q)];
      }
    }
    assert xs[..|xs|] == xs;
    ok := routes != [];
  }

  // ---------------------------------------------------------------- one peer

  method NormalizePeer(lib: Library, e: Endpoint, index: nat, p: Peer, taken: set<Addr>, seen: Seen)
    returns (ok: bool, q: Peer, seen': Seen)
    requires Lawful(lib) && taken == EndpointAddrs(lib, e.address)
    requires forall o :: o in seen.runtime ==> o.peerIndex < index
    ensures ok <==> PeerOk(lib, e, p) && Fresh(lib, seen, p)
    ensures ok ==> q == NormalPeer(lib, e, p) && Grown(lib, seen, p, index, seen')
  {
    hide Lawful, AssignedOk, Assigned, Apart, TookIn, Role, RoleOk, KeysOk, KeyMode, ClientOk, CoveredBy, MaskedAll,
      PrefixesOf, ClientNormal, EndpointAddrs, SlotAfter, Include4, Include6, ClientPreset, ModeOfRole, RemoteMode;
    q, seen' := p, seen;
    var role, remoteMode, keyMode := Role(p), RemoteMode(p), KeyMode(p);
    if !RoleOk(p) || !KeysOk(lib, e, p) || p.publicKey in seen.keys {
      return false, p, seen;
    }
    q := q.(peerRole := role, remoteMode := remoteMode, peerMode := ModeOfRole(role), keyMode := keyMode);
    if remoteMode == "dynamic" {
      q := q.(address := "", port := 0);
    }
    if keyMode == "existing_peer" {
      q := q.(clientPrivateKey := "", clientPrivateKeySet := None);
    }
    var hostsOk, hosts, assigned4, assigned6 := CheckAssigned(lib, e, p, taken, seen.hosts);
    if !hostsOk {
      return false, p, seen;
    }
    q := q.(assigned4 := assigned4, assigned6 := assigned6);
    var sitesOk, sites := CheckSites(lib, e, p, seen.sites);
    if !sitesOk {
      return false, p, seen;
    }
    q := q.(remoteSites := Printed(lib, Sites(lib, p)));
    if role == "site_gateway" {
      q := q.(localSites := Printed(lib, PrefixesOf(lib, p.localSites)));
      if p.routeInbounds == [] {
        q := q.(routeInbounds := [e.tag]);
      }
    } else {
      q := q.(routeInbounds := [], localSites := []);
    }
    var preset := InferPreset(lib, p, Printed(lib, Assigned(lib, p)));
    var xs := RuntimeTexts(lib, p);
    if preset !in ["peer_addresses", "remote_networks", "full_tunnel", "custom"] ||
       (preset == "peer_addresses" && role == "site_gateway") || xs == [] {
      return false, p, seen;
    }
    var runtimeOk, normal, runtime := CheckRuntimeTexts(lib, xs, preset, index, seen.runtime);
    if !runtimeOk {
      return false, p, seen;
    }
    if role == "site_gateway" {
      var covered := CheckCoverage(lib, Sites(lib, p), Runtime(lib, p), normal);
      if !covered {
        return false, p, seen;
      }
    }
    q := q.(runtimePreset := preset, runtimeAllowed := normal, serverAllowed := normal, allowed := normal);
    if keyMode == "generated_client" {
      var clientOk, routes := ClientRoutes(lib, e, p);
      if !clientOk {
        return false, p, seen;
      }
      q := q.(include4 := Some(Include4(lib, p)), include6 := Some(Include6(lib, p)),
              clientPreset := ClientPreset(p), clientAllowed := routes);
    }
    seen' := Seen(seen.keys + {p.publicKey}, hosts, sites, runtime);
    ok := true;
  }

  // ---------------------------------------------------------------- the endpoint

  /** `seen` holds exactly what the first `n` peers took. */
  ghost predicate Recorded(lib: Library, e: Endpoint, seen: Seen, n: nat)
    requires n <= |e.peers| && forall i :: 0 <= i < n ==> e.peers[i].Some?
  {
    && (forall x :: x in seen.keys <==> exists i :: 0 <= i < n && x == e.peers[i].value.publicKey)
    && (forall q :: q in seen.hosts <==> exists i :: 0 <= i < n && q in Assigned(lib, e.peers[i].value))
    && (forall q :: q in seen.sites <==> exists i :: 0 <= i < n && q in Sites(lib, e.peers[i].value))
    && (forall o :: o in seen.runtime <==> o.peerIndex < n && o.prefix in Runtime(lib, e.peers[o.peerIndex].value))
  }

  lemma RecordedNone(lib: Library, e: Endpoint, seen: Seen)
    requires seen == Seen({}, [], [], [])
    ensures Recorded(lib, e, seen, 0)
  {
  }

  lemma FreshIffPairs(lib: Library, e: Endpoint, seen: Seen, n: nat, p: Peer)
    requires n <= |e.peers| && forall i :: 0 <= i < n ==> e.peers[i].Some?
    requires Recorded(lib, e, seen, n)
    ensures Fresh(lib, seen, p) <==> forall i :: 0 <= i < n ==> PairOk(lib, e.peers[i].value, p)
  {
    hide Overlaps, Runtime, Assigned, Sites, PrefixesIn;
    forall q: Prefix {
      InPrefixes(seen.runtime, q);
    }
    if Fresh(lib, seen, p) {
      forall i | 0 <= i < n
        ensures PairOk(lib, e.peers[i].value, p)
      {
        assert forall q :: q in Runtime(lib, e.peers[i].value) ==> Owned(q, i) in seen.runtime;
      }
    }
  }

  lemma RecordedGrows(lib: Library, e: Endpoint, seen: Seen, n: nat, seen': Seen)
    requires n < |e.peers| && forall i :: 0 <= i <= n ==> e.peers[i].Some?
    requires Recorded(lib, e, seen, n)
    requires Grown(lib, seen, e.peers[n].value, n, seen')
    requires forall o :: o in seen.runtime ==> o.peerIndex < n
    ensures Recorded(lib, e, seen', n + 1)
    ensures forall o :: o in seen'.runtime ==> o.peerIndex < n + 1
  {
    hide Assigned, Sites, Runtime, PrefixesIn;
    assert forall q :: q in seen'.hosts <==> q in seen.hosts || q in Assigned(lib, e.peers[n].value);
    assert forall q :: q in seen'.sites <==> q in seen.sites || q in Sites(lib, e.peers[n].value);
  }

  lemma SettledByNormal(lib: Library, e: Endpoint)
    requires AcceptsUpTo(lib, e, |e.peers|)
    ensures RootSettled(e, Normalized(lib, e))
    ensures forall i :: 0 <= i < |e.peers| ==>
      && e.peers[i].Some? && Normalized(lib, e).peers[i].Some?
      && PeerSettled(lib, e, e.peers[i].value, Normalized(lib, e).peers[i].value)
  {
    hide PeerOk, PairOk, NormalPeer, PeerSettled;
    forall i | 0 <= i < |e.peers|
      ensures PeerSettled(lib, e, e.peers[i].value, NormalPeer(lib, e, e.peers[i].value))
    {
      NormalSettled(lib, e, e.peers[i].value);
    }
  }

  method NormalizeAndValidate(lib: Library, e: Endpoint) returns (r: Result<Endpoint, Reject>)
    requires Lawful(lib)
    ensures !Strict(e) ==> r == Ok(e)
    ensures Strict(e) ==> (r.Ok? <==> Accepts(lib, e))
    ensures Strict(e) && r.Ok? ==> r.value == Normalized(lib, e)
    ensures Strict(e) && r.Ok? ==>
      && RootSettled(e, r.value)
      && forall i :: 0 <= i < |e.peers| ==>
          e.peers[i].Some? && r.value.peers[i].Some? && PeerSettled(lib, e, e.peers[i].value, r.value.peers[i].value)
    ensures r == Err(BadEndpoint) ==> !RootOk(lib, e)
    ensures r.Err? && r.error.BadPeer? ==>
      && r.error.index < |e.peers|
      && RootOk(lib, e) && AcceptsUpTo(lib, e, r.error.index) && !AcceptsUpTo(lib, e, r.error.index + 1)
  {
    hide PeerOk, PairOk, PeerSettled, Fresh, Grown, Recorded, NormalPeer, AddressesOk, TunnelOk, ExportEnabled, EndpointAddrs, Lawful;
    if !Strict(e) {
      return Ok(e);
    }
    var addressesOk, taken := CheckAddresses(lib, e);
    if !addressesOk || !RootOk(lib, e) {
      return Err(BadEndpoint);
    }
    var seen := Seen({}, [], [], []);
    RecordedNone(lib, e, seen);
    var peers := e.peers;
    for index := 0 to |e.peers|
      invariant AcceptsUpTo(lib, e, index)
      invariant Recorded(lib, e, seen, index)
      invariant forall o :: o in seen.runtime ==> o.peerIndex < index
      invariant peers == NormalPeers(lib, e, index)
    {
      if e.peers[index].None? {
        return Err(BadPeer(index));
      }
      var p := e.peers[index].value;
      var ok, q, seen' := NormalizePeer(lib, e, index, p, taken, seen);
      FreshIffPairs(lib, e, seen, index, p);
      if !ok {
        return Err(BadPeer(index));
      }
      RecordedGrows(lib, e, seen, index, seen');
      seen := seen';
      peers := peers[index := Some(q)];
    }
    SettledByNormal(lib, e);
    var hub := if e.hubForwarding.Some? then e.hubForwarding.value else BoolValue(e.peerToPeer, false);
    r := Ok(e.(schema := SCHEMA_VERSION, exportEnabled := Some(ExportEnabled(e)),
               hubForwarding := Some(hub), peerToPeer := Some(hub), peers := peers));
  }
}
