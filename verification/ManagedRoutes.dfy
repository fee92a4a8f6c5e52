/**
 The route rules the panel owns: how an endpoint yields them (service/wireguard.go:734-782) and how they are
 added to the user's routes when a configuration is rendered (service/config.go:456-533).
 */
module ManagedRoutes {
  import opened Strings
  import opened Wrappers
  import opened WireGuardModel

  /** A row of the managed-route table; `cidrs` and `inbounds` are None where the JSON column is blank. */
  datatype ManagedRule = ManagedRule(
    key: string, endpointTag: string, ipv4: string, ipv6: string,
    cidrs: Option<seq<string>>, inbounds: Option<seq<string>>)

  // ---------------------------------------------------------------- keys

  const HUB_KEY := "wireguard-hub-forwarding:"
  const SITE_KEY := "wireguard-site-gateway:"

  function HubKey(tag: string): string {
    HUB_KEY + tag
  }

  function SiteKey(tag: string, index: nat): string {
    SITE_KEY + tag + ":" + Decimal(index)
  }

  /** The last colon ends the tag, since a decimal number has none. */
  lemma SiteKeyInjective(tag: string, index: nat, tag': string, index': nat)
    ensures SiteKey(tag, index) == SiteKey(tag', index') <==> tag == tag' && index == index'
  {
    if SiteKey(tag, index) == SiteKey(tag', index') {
      var s, t := tag + ":" + Decimal(index), tag' + ":" + Decimal(index');
      assert s == SiteKey(tag, index)[|SITE_KEY|..] == SiteKey(tag', index')[|SITE_KEY|..] == t;
      DecimalDigits(index);
      DecimalDigits(index');
      ColonAt(tag, Decimal(index), tag', Decimal(index'));
      assert s[..|tag|] == tag && t[..|tag|] == tag';
      assert s[|tag| + 1..] == Decimal(index) && t[|tag| + 1..] == Decimal(index');
      DecimalInjective(index, index');
    }
  }

  lemma ColonAt(a: string, m: string, b: string, n: string)
    requires a + ":" + m == b + ":" + n
    requires forall k :: 0 <= k < |m| ==> m[k] in DIGITS
    requires forall k :: 0 <= k < |n| ==> n[k] in DIGITS
    ensures |a| == |b|
  {
    var s, t := a + ":" + m, b + ":" + n;
    assert s[|a|] == ':' && t[|b|] == ':';
    assert forall k :: |a| < k < |s| ==> s[k] == m[k - |a| - 1];
    assert forall k :: |b| < k < |t| ==> t[k] == n[k - |b| - 1];
  }

  lemma KeysOfTwoKindsDiffer(tag: string, tag': string, index: nat)
    ensures HubKey(tag) != SiteKey(tag', index)
  {
    assert HubKey(tag)[10] == 'h' && SiteKey(tag', index)[10] == 's';
  }

  // ---------------------------------------------------------------- what an endpoint derives

  predicate Forwards(e: Endpoint) {
    BoolValue(e.hubForwarding, BoolValue(e.peerToPeer, false))
  }

  predicate HasSiteRule(e: Endpoint, i: nat) {
    i < |e.peers| && e.peers[i].Some? && e.peers[i].value.peerRole == "site_gateway" && e.peers[i].value.remoteSites != []
  }

  function HubRule(e: Endpoint): ManagedRule {
    ManagedRule(HubKey(e.tag), e.tag, e.tunnel4, e.tunnel6, None, None)
  }

  function SiteRule(e: Endpoint, i: nat): ManagedRule
    requires HasSiteRule(e, i)
  {
    var p := e.peers[i].value;
    ManagedRule(SiteKey(e.tag, i), e.tag, "", "", Some(p.remoteSites),
                Some(if p.routeInbounds != [] then p.routeInbounds else [e.tag]))
  }

  ghost predicate Derives(e: Endpoint, r: ManagedRule) {
    e.kind == "wireguard" &&
    ((Forwards(e) && r == HubRule(e)) || exists i: nat :: HasSiteRule(e, i) && r == SiteRule(e, i))
  }

  /** A key tells its endpoint's tag and its rule. */
  lemma KeyTellsRule(e: Endpoint, f: Endpoint, r: ManagedRule, s: ManagedRule)
    requires Derives(e, r) && Derives(f, s) && r.key == s.key
    ensures e.tag == f.tag
    ensures e == f ==> r == s
  {
    if r == HubRule(e) && s == HubRule(f) {
      assert HubKey(e.tag)[|HUB_KEY|..] == e.tag && HubKey(f.tag)[|HUB_KEY|..] == f.tag;
    } else if r == HubRule(e) {
      var j: nat :| HasSiteRule(f, j) && s == SiteRule(f, j);
      KeysOfTwoKindsDiffer(e.tag, f.tag, j);
    } else {
      var i: nat :| HasSiteRule(e, i) && r == SiteRule(e, i);
      if s == HubRule(f) {
        KeysOfTwoKindsDiffer(f.tag, e.tag, i);
      } else {
        var j: nat :| HasSiteRule(f, j) && s == SiteRule(f, j);
        SiteKeyInjective(e.tag, i, f.tag, j);
      }
    }
  }

  // ---------------------------------------------------------------- JSON route rules

  /** A JSON value where a list of texts is expected: a list (None for an item that is no text), one text, a
      Go list of texts not yet encoded, or anything else. */
  datatype JsonList = Items(items: seq<Option<string>>) | Text(text: string) | Native(strings: seq<string>) | NoList

  datatype Rule = NotObject(raw: string)
                | Rule(action: string, outbound: string, inbound: JsonList, cidr: JsonList, rest: string)

  /** `rest` stands for every other key of the route object. */
  datatype Route = Route(rules: seq<Rule>, rest: string)

  function TextsIn(items: seq<Option<string>>): (r: seq<string>)
    ensures |r| == |items|
  {
    seq(|items|, i requires 0 <= i < |items| => if items[i].Some? then items[i].value else "")
  }

  /** `stringsValue`: a Go list that was never encoded reads as empty. */
  function StringsValue(v: JsonList): seq<string> {
    match v
    case Items(items) => Kept(TextsIn(items))
    case Text(text) => if Trim(text) == "" then [] else Kept(Split(Trim(text), ','))
    case Native(_) => []
    case NoList => []
  }

  /** Two lists compare equal after sorting and joining with NUL. */
  predicate SameJoined(xs: seq<string>, ys: seq<string>) {
    Join(Sorted(xs), '\0') == Join(Sorted(ys), '\0')
  }

  predicate Matches(rule: Rule, inbounds: seq<string>, tag: string, cidrs: seq<string>) {
    && rule.Rule? && Trim(rule.action) == "route" && Trim(rule.outbound) == tag
    && SameJoined(StringsValue(rule.inbound), inbounds)
    && SameJoined(StringsValue(rule.cidr), cidrs)
  }

  /** What the comparison is meant to decide: same route up to the order of inbounds and CIDRs. */
  predicate Equivalent(rule: Rule, inbounds: seq<string>, tag: string, cidrs: seq<string>) {
    && rule.Rule? && Trim(rule.action) == "route" && Trim(rule.outbound) == tag
    && multiset(StringsValue(rule.inbound)) == multiset(inbounds)
    && multiset(StringsValue(rule.cidr)) == multiset(cidrs)
  }

  /** Texts as they are stored: trimmed, not empty, without NUL. */
  predicate Clean(xs: seq<string>) {
    forall k :: 0 <= k < |xs| ==> xs[k] != "" && Trim(xs[k]) == xs[k] && Free(xs[k], '\0')
  }

  lemma SortedClean(xs: seq<string>)
    requires Clean(xs)
    ensures Clean(Sorted(xs)) && (Sorted(xs) == [] <==> xs == [])
  {
    forall k | 0 <= k < |Sorted(xs)|
      ensures Sorted(xs)[k] in xs
    {
      assert Sorted(xs)[k] in multiset(Sorted(xs));
    }
    assert |multiset(Sorted(xs))| == |Sorted(xs)| && |multiset(xs)| == |xs|;
  }

  /** On clean texts sorting and joining decides equality of multisets. */
  lemma SameJoinedIffSameTexts(xs: seq<string>, ys: seq<string>)
    requires Clean(xs) && Clean(ys)
    ensures SameJoined(xs, ys) <==> multiset(xs) == multiset(ys)
  {
    hide Clean, Sorted, Join;
    SortedClean(xs);
    SortedClean(ys);
    SortedNormalForm(xs, ys);
    CleanJoin(Sorted(xs), Sorted(ys));
  }

  lemma CleanJoin(xs: seq<string>, ys: seq<string>)
    requires Clean(xs) && Clean(ys)
    ensures Join(xs, '\0') == Join(ys, '\0') <==> xs == ys
  {
    JoinEmpty(xs, '\0');
    JoinEmpty(ys, '\0');
    if xs != [] && ys != [] {
      JoinInjective(xs, ys, '\0');
    }
  }

  predicate CleanRule(rule: Rule) {
    rule.Rule? ==> Clean(StringsValue(rule.inbound)) && Clean(StringsValue(rule.cidr))
  }

  lemma MatchesIffEquivalent(rule: Rule, inbounds: seq<string>, tag: string, cidrs: seq<string>)
    requires CleanRule(rule) && Clean(inbounds) && Clean(cidrs)
    ensures Matches(rule, inbounds, tag, cidrs) <==> Equivalent(rule, inbounds, tag, cidrs)
  {
    hide SameJoined, Clean;
    if rule.Rule? {
      SameJoinedIffSameTexts(StringsValue(rule.inbound), inbounds);
      SameJoinedIffSameTexts(StringsValue(rule.cidr), cidrs);
    }
  }

  // ---------------------------------------------------------------- injection

  function RouteCidrs(item: ManagedRule): seq<string> {
    if item.cidrs.Some? then item.cidrs.value
    else (if item.ipv4 != "" then [item.ipv4] else []) + (if item.ipv6 != "" then [item.ipv6] else [])
  }

  function RouteInbounds(item: ManagedRule): seq<string> {
    if item.inbounds.Some? && item.inbounds.value != [] then item.inbounds.value
    else if item.endpointTag == "" then [] else [item.endpointTag]
  }

  predicate NonEmpty(item: ManagedRule) {
    RouteCidrs(item) != [] && RouteInbounds(item) != []
  }

  predicate Contained(rules: seq<Rule>, item: ManagedRule) {
    exists k :: 0 <= k < |rules| && Matches(rules[k], RouteInbounds(item), item.endpointTag, RouteCidrs(item))
  }

  /** A rule as it is added: its lists are Go lists until the route is encoded. */
  function NewRule(item: ManagedRule): Rule {
    Rule("route", item.endpointTag, Native(RouteInbounds(item)), Native(RouteCidrs(item)), "")
  }

  method ContainsManagedRoute(rules: seq<Rule>, inbounds: seq<string>, tag: string, cidrs: seq<string>)
    returns (found: bool)
    ensures found <==> exists k :: 0 <= k < |rules| && Matches(rules[k], inbounds, tag, cidrs)
  {
    hide Join, Sorted, StringsValue, Trim;
    var wanted, wantedInbounds := Join(Sorted(cidrs), '\0'), Join(Sorted(inbounds), '\0');
    for i := 0 to |rules|
      invariant forall k :: 0 <= k < i ==> !Matches(rules[k], inbounds, tag, cidrs)
    {
      var rule := rules[i];
      if rule.NotObject? || Trim(rule.action) != "route" || Trim(rule.outbound) != tag {
        continue;
      }
      if Join(Sorted(StringsValue(rule.inbound)), '\0') == wantedInbounds &&
         Join(Sorted(StringsValue(rule.cidr)), '\0') == wanted {
        assert Matches(rules[i], inbounds, tag, cidrs);
        return true;
      }
    }
    found := false;
  }

  /** The rules after the first `n` managed items. */
  function Injected(rules: seq<Rule>, items: seq<ManagedRule>): seq<Rule> {
    if items == [] then rules
    else
      var before := Injected(rules, items[..|items| - 1]);
      var item := items[|items| - 1];
      if !NonEmpty(item) || Contained(before, item) then before else before + [NewRule(item)]
  }

  function EncodeList(v: JsonList): JsonList {
    if v.Native? then Items(seq(|v.strings|, i requires 0 <= i < |v.strings| => Some(v.strings[i]))) else v
  }

  function Encode(rule: Rule): Rule {
    if rule.Rule? then rule.(inbound := EncodeList(rule.inbound), cidr := EncodeList(rule.cidr)) else rule
  }

  function EncodeAll(rules: seq<Rule>): (r: seq<Rule>)
    ensures |r| == |rules|
  {
    seq(|rules|, i requires 0 <= i < |rules| => Encode(rules[i]))
  }

  /** `injectManagedRoutes` (service/config.go:456-481); `managed` is the table in the order of its keys. */
  method InjectManagedRoutes(route: Route, managed: seq<ManagedRule>) returns (r: Route)
    ensures r == Route(EncodeAll(Injected(route.rules, managed)), route.rest)
  {
    hide Contained, NonEmpty;
    var rules := route.rules;
    for i := 0 to |managed|
      invariant rules == Injected(route.rules, managed[..i])
    {
      assert managed[..i + 1][..i] == managed[..i];
      var skip := SkipManaged(rules, managed[i]);
      if skip {
        continue;
      }
      rules := rules + [NewRule(managed[i])];
    }
    assert managed[..|managed|] == managed;
    r := Route(EncodeAll(rules), route.rest);
  }

  method SkipManaged(rules: seq<Rule>, item: ManagedRule) returns (skip: bool)
    ensures skip <==> !NonEmpty(item) || Contained(rules, item)
  {
    hide Matches;
    var cidrs, inbounds := RouteCidrs(item), RouteInbounds(item);
    if cidrs == [] || inbounds == [] {
      return true;
    }
    skip := ContainsManagedRoute(rules, inbounds, item.endpointTag, cidrs);
  }

  // ---------------------------------------------------------------- what injection guarantees

  /** Rules that came out of a JSON document. */
  predicate Decoded(rules: seq<Rule>) {
    forall k :: 0 <= k < |rules| ==> rules[k].Rule? ==> !rules[k].inbound.Native? && !rules[k].cidr.Native?
  }

  predicate CleanItem(item: ManagedRule) {
    Clean(RouteCidrs(item)) && Clean(RouteInbounds(item)) && Trim(item.endpointTag) == item.endpointTag
  }

  predicate CleanItems(items: seq<ManagedRule>) {
    forall k :: 0 <= k < |items| ==> CleanItem(items[k])
  }

  /** The rule was added for one of the items. */
  ghost predicate AddedFor(rule: Rule, items: seq<ManagedRule>) {
    exists item :: item in items && NonEmpty(item) && rule == NewRule(item)
  }

  ghost predicate RouteFor(rule: Rule, items: seq<ManagedRule>) {
    exists item :: item in items && NonEmpty(item) && rule == Encode(NewRule(item))
  }

  lemma {:induction false} InjectedKeepsPrefix(rules: seq<Rule>, items: seq<ManagedRule>)
    ensures rules <= Injected(rules, items)
    ensures forall k :: |rules| <= k < |Injected(rules, items)| ==> AddedFor(Injected(rules, items)[k], items)
  {
    hide Contained, NonEmpty, NewRule;
    if items != [] {
      var last := |items| - 1;
      InjectedKeepsPrefix(rules, items[..last]);
      assert items[last] in items;
      assert forall item :: item in items[..last] ==> item in items;
    }
  }

  /** The user's rules come first and unchanged, what follows was added for a non-empty item, and every other
      key of the route is untouched. */
  lemma UserRulesFirst(route: Route, items: seq<ManagedRule>, r: Route)
    requires Decoded(route.rules)
    requires r == Route(EncodeAll(Injected(route.rules, items)), route.rest)
    ensures route.rules <= r.rules && r.rest == route.rest
    ensures forall k :: |route.rules| <= k < |r.rules| ==> RouteFor(r.rules[k], items)
  {
    hide NonEmpty, NewRule, Injected, EncodeList;
    InjectedKeepsPrefix(route.rules, items);
    var all := Injected(route.rules, items);
    forall k | 0 <= k < |route.rules|
      ensures r.rules[k] == route.rules[k]
    {
      assert all[k] == route.rules[k];
      DecodedStays(route.rules[k]);
    }
    forall k | |route.rules| <= k < |r.rules|
      ensures RouteFor(r.rules[k], items)
    {
      assert AddedFor(all[k], items) && r.rules[k] == Encode(all[k]);
    }
  }

  lemma DecodedStays(rule: Rule)
    requires rule.Rule? ==> !rule.inbound.Native? && !rule.cidr.Native?
    ensures Encode(rule) == rule
  {
  }

  lemma {:induction false} KeptClean(xs: seq<string>)
    requires Clean(xs)
    ensures Kept(xs) == xs
  {
    if xs != [] {
      KeptClean(xs[..|xs| - 1]);
      assert xs == xs[..|xs| - 1] + [xs[|xs| - 1]];
    }
  }

  lemma EncodedReadsBack(xs: seq<string>)
    requires Clean(xs)
    ensures StringsValue(EncodeList(Native(xs))) == xs
  {
    assert TextsIn(EncodeList(Native(xs)).items) == xs;
    KeptClean(xs);
  }

  /** Once encoded, an added rule is recognised as its own. */
  lemma EncodedRuleMatches(item: ManagedRule)
    requires CleanItem(item)
    ensures Matches(Encode(NewRule(item)), RouteInbounds(item), item.endpointTag, RouteCidrs(item))
    ensures CleanRule(Encode(NewRule(item)))
  {
    hide Clean, StringsValue, EncodeList, RouteCidrs, RouteInbounds, Trim;
    EncodedReadsBack(RouteInbounds(item));
    EncodedReadsBack(RouteCidrs(item));
    RouteWordTrimmed();
  }

  lemma RouteWordTrimmed()
    ensures Trim("route") == "route"
  {
    assert TrimLeft("route") == "route";
  }

  /** What is contained once encoded stays so when rules are added. */
  lemma ContainedStays(before: seq<Rule>, after: seq<Rule>, item: ManagedRule)
    requires before <= after && Contained(EncodeAll(before), item)
    ensures Contained(EncodeAll(after), item)
  {
    hide Matches, Encode;
    var k :| 0 <= k < |before| && Matches(EncodeAll(before)[k], RouteInbounds(item), item.endpointTag, RouteCidrs(item));
    assert EncodeAll(after)[k] == EncodeAll(before)[k];
  }

  /** Rules not yet encoded never match a non-empty item, so a match is one of the decoded rules. */
  lemma ContainedEncodes(rules: seq<Rule>, item: ManagedRule)
    requires Contained(rules, item) && NonEmpty(item) && CleanItem(item)
    ensures Contained(EncodeAll(rules), item)
  {
    hide Matches, Encode, NonEmpty, CleanItem;
    var k :| 0 <= k < |rules| && Matches(rules[k], RouteInbounds(item), item.endpointTag, RouteCidrs(item));
    NativeNeverMatches(rules[k], item);
    assert EncodeAll(rules)[k] == rules[k];
  }

  lemma AddedIsContained(before: seq<Rule>, item: ManagedRule)
    requires CleanItem(item)
    ensures Contained(EncodeAll(before + [NewRule(item)]), item)
  {
    hide Matches, Encode, CleanItem, NewRule;
    EncodedRuleMatches(item);
    assert EncodeAll(before + [NewRule(item)])[|before|] == Encode(NewRule(item));
  }

  lemma {:induction false} InjectedContainsAll(rules: seq<Rule>, items: seq<ManagedRule>, j: nat)
    requires Decoded(rules) && CleanItems(items)
    requires j < |items| && NonEmpty(items[j])
    ensures Contained(EncodeAll(Injected(rules, items)), items[j])
  {
    hide Contained, NonEmpty, CleanItem, EncodeAll, NewRule;
    var last := |items| - 1;
    var before := Injected(rules, items[..last]);
    if j < last {
      assert items[..last][j] == items[j];
      InjectedContainsAll(rules, items[..last], j);
      ContainedStays(before, Injected(rules, items), items[j]);
    } else if Contained(before, items[j]) {
      ContainedEncodes(before, items[j]);
    } else {
      AddedIsContained(before, items[j]);
    }
  }

  lemma NativeNeverMatches(rule: Rule, item: ManagedRule)
    requires Matches(rule, RouteInbounds(item), item.endpointTag, RouteCidrs(item))
    requires NonEmpty(item) && CleanItem(item)
    ensures Encode(rule) == rule
  {
    hide Trim, Clean, RouteCidrs, RouteInbounds;
    if rule.inbound.Native? {
      EmptyMatchesNothing(RouteInbounds(item));
    }
    if rule.cidr.Native? {
      EmptyMatchesNothing(RouteCidrs(item));
    }
  }

  lemma EmptyMatchesNothing(xs: seq<string>)
    requires Clean(xs) && xs != []
    ensures !SameJoined([], xs)
  {
    SameJoinedIffSameTexts([], xs);
    assert |multiset(xs)| == |xs|;
  }

  /** After injection every non-empty managed item has its route, up to the order of inbounds and CIDRs. */
  lemma EveryItemHasItsRoute(route: Route, items: seq<ManagedRule>, j: nat)
    requires Decoded(route.rules) && CleanItems(items)
    requires forall k :: 0 <= k < |route.rules| ==> CleanRule(route.rules[k])
    requires j < |items| && NonEmpty(items[j])
    ensures exists k :: 0 <= k < |Injected(route.rules, items)| &&
              Equivalent(EncodeAll(Injected(route.rules, items))[k],
                         RouteInbounds(items[j]), items[j].endpointTag, RouteCidrs(items[j]))
  {
    hide Matches, Equivalent, NonEmpty, RouteInbounds, RouteCidrs, CleanRule, Encode;
    InjectedContainsAll(route.rules, items, j);
    var rules := EncodeAll(Injected(route.rules, items));
    var item := items[j];
    var k :| 0 <= k < |rules| && Matches(rules[k], RouteInbounds(item), item.endpointTag, RouteCidrs(item));
    assert CleanRule(rules[k]) by {
      UserRulesFirst(route, items, Route(rules, route.rest));
      if k >= |route.rules| {
        var added :| added in items && NonEmpty(added) && rules[k] == Encode(NewRule(added));
        EncodedRuleMatches(added);
      }
    }
    MatchesIffEquivalent(rules[k], RouteInbounds(item), item.endpointTag, RouteCidrs(item));
  }

  lemma {:induction false} NothingMissing(rules: seq<Rule>, items: seq<ManagedRule>)
    requires forall item :: item in items && NonEmpty(item) ==> Contained(rules, item)
    ensures Injected(rules, items) == rules
  {
    hide Contained, NonEmpty;
    if items != [] {
      assert items[|items| - 1] in items;
      NothingMissing(rules, items[..|items| - 1]);
    }
  }

  /** Injecting into the result of an injection adds nothing. */
  lemma InjectionIsIdempotent(route: Route, items: seq<ManagedRule>)
    requires Decoded(route.rules) && CleanItems(items)
    ensures var once := EncodeAll(Injected(route.rules, items));
            EncodeAll(Injected(once, items)) == once
  {
    hide Contained, NonEmpty, CleanItems, Decoded, EncodeList;
    var once := EncodeAll(Injected(route.rules, items));
    forall item | item in items && NonEmpty(item)
      ensures Contained(once, item)
    {
      var j :| 0 <= j < |items| && items[j] == item;
      InjectedContainsAll(route.rules, items, j);
    }
    NothingMissing(once, items);
    forall k | 0 <= k < |once|
      ensures Encode(once[k]) == once[k]
    {
      EncodeTwice(Injected(route.rules, items)[k]);
    }
    assert EncodeAll(once) == once;
  }

  lemma EncodeTwice(rule: Rule)
    ensures Encode(Encode(rule)) == Encode(rule)
  {
  }
}
