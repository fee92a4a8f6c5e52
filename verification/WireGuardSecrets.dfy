/**
 Secrets never leave the panel: an endpoint is shown with its keys redacted, and an edited endpoint gets
 the redacted keys back from the stored one (service/wireguard.go:648-732).
 */
module WireGuardSecrets {
  import opened Strings
  import opened Wrappers
  import opened WireGuardModel

  /** A key pair of the older storage format, kept beside the endpoint. */
  datatype ExtKey = ExtKey(publicKey: string, privateKey: string)

  // ---------------------------------------------------------------- redaction

  function RedactText(secret: string): string {
    if secret != "" then REDACTED else secret
  }

  function RedactFlag(secret: string, flag: Option<bool>): Option<bool> {
    if secret != "" then Some(true) else flag
  }

  function RedactPeer(p: Peer): Peer {
    p.(clientPrivateKey := RedactText(p.clientPrivateKey),
       clientPrivateKeySet := RedactFlag(p.clientPrivateKey, p.clientPrivateKeySet),
       preSharedKey := RedactText(p.preSharedKey),
       preSharedKeySet := RedactFlag(p.preSharedKey, p.preSharedKeySet))
  }

  function Redact(e: Endpoint): Endpoint {
    e.(privateKey := RedactText(e.privateKey), privateKeySet := RedactFlag(e.privateKey, e.privateKeySet),
       peers := seq(|e.peers|, i requires 0 <= i < |e.peers| =>
         if e.peers[i].Some? then Some(RedactPeer(e.peers[i].value)) else None))
  }

  /** The secret is hidden behind the marker, with its flag set, or there is none. */
  predicate Hidden(secret: string, flag: Option<bool>, shown: string, shownFlag: Option<bool>) {
    if secret == "" then shown == "" && shownFlag == flag else shown == "[redacted]" && shownFlag == Some(true)
  }

  /** Both secrets of the peer are hidden, and nothing else is changed. */
  predicate HiddenPeer(p: Peer, q: Peer) {
    && Hidden(p.clientPrivateKey, p.clientPrivateKeySet, q.clientPrivateKey, q.clientPrivateKeySet)
    && Hidden(p.preSharedKey, p.preSharedKeySet, q.preSharedKey, q.preSharedKeySet)
    && q == p.(clientPrivateKey := q.clientPrivateKey, clientPrivateKeySet := q.clientPrivateKeySet,
               preSharedKey := q.preSharedKey, preSharedKeySet := q.preSharedKeySet)
  }

  /** `redactWireGuardSecrets` on the copy of the endpoint that is shown, and on the key pairs beside it. */
  method RedactSecrets(e: Endpoint, keys: seq<ExtKey>) returns (r: Endpoint, shownKeys: seq<ExtKey>)
    ensures r == Redact(e)
    ensures Hidden(e.privateKey, e.privateKeySet, r.privateKey, r.privateKeySet)
    ensures r == e.(privateKey := r.privateKey, privateKeySet := r.privateKeySet, peers := r.peers) && |r.peers| == |e.peers|
    ensures forall i :: 0 <= i < |e.peers| ==>
      if e.peers[i].Some? then r.peers[i].Some? && HiddenPeer(e.peers[i].value, r.peers[i].value) else r.peers[i].None?
    ensures |shownKeys| == |keys|
    ensures forall i :: 0 <= i < |keys| ==> shownKeys[i].publicKey == keys[i].publicKey && shownKeys[i].privateKey == ""
  {
    hide RedactPeer, HiddenPeer;
    shownKeys := keys;
    for index := 0 to |keys|
      invariant |shownKeys| == |keys|
      invariant forall i :: 0 <= i < |keys| ==> shownKeys[i] == if i < index then ExtKey(keys[i].publicKey, "") else keys[i]
    {
      shownKeys := shownKeys[index := shownKeys[index].(privateKey := "")];
    }
    var peers := e.peers;
    for index := 0 to |peers|
      invariant |peers| == |e.peers|
      invariant forall k :: 0 <= k < index ==> peers[k] == Redact(e).peers[k]
      invariant forall k :: 0 <= k < index && e.peers[k].Some? ==> HiddenPeer(e.peers[k].value, peers[k].value)
      invariant forall k :: index <= k < |peers| ==> peers[k] == e.peers[k]
    {
      if peers[index].Some? {
        var peer := SetRedacted(peers[index].value);
        peers := peers[index := Some(peer)];
      }
    }
    assert peers == Redact(e).peers;
    r := e.(privateKey := RedactText(e.privateKey), privateKeySet := RedactFlag(e.privateKey, e.privateKeySet),
            peers := peers);
  }

  method SetRedacted(p: Peer) returns (peer: Peer)
    ensures peer == RedactPeer(p) && HiddenPeer(p, peer)
  {
    peer := p;
    if peer.clientPrivateKey != "" {
      peer := peer.(clientPrivateKeySet := Some(true), clientPrivateKey := REDACTED);
    }
    if peer.preSharedKey != "" {
      peer := peer.(preSharedKeySet := Some(true), preSharedKey := REDACTED);
    }
  }

  /** Where one endpoint has a secret the other has some secret too. */
  predicate BothOrNone(secret: string, flag: Option<bool>, other: string, otherFlag: Option<bool>) {
    (secret == "" <==> other == "") && (secret == "" ==> flag == otherFlag)
  }

  predicate DifferInSecretsPeer(p: Peer, q: Peer) {
    && BothOrNone(p.clientPrivateKey, p.clientPrivateKeySet, q.clientPrivateKey, q.clientPrivateKeySet)
    && BothOrNone(p.preSharedKey, p.preSharedKeySet, q.preSharedKey, q.preSharedKeySet)
    && q == p.(clientPrivateKey := q.clientPrivateKey, clientPrivateKeySet := q.clientPrivateKeySet,
               preSharedKey := q.preSharedKey, preSharedKeySet := q.preSharedKeySet)
  }

  predicate DifferInSecrets(e: Endpoint, f: Endpoint) {
    && BothOrNone(e.privateKey, e.privateKeySet, f.privateKey, f.privateKeySet)
    && f == e.(privateKey := f.privateKey, privateKeySet := f.privateKeySet, peers := f.peers) && |f.peers| == |e.peers|
    && forall i :: 0 <= i < |e.peers| ==>
        if e.peers[i].Some? then f.peers[i].Some? && DifferInSecretsPeer(e.peers[i].value, f.peers[i].value) else f.peers[i].None?
  }

  lemma PeersShownAlike(p: Peer, q: Peer)
    ensures RedactPeer(p) == RedactPeer(q) <==> DifferInSecretsPeer(p, q)
  {
  }

  /** Two endpoints are shown alike exactly if they differ in nothing but which secrets they hold: nothing of a secret
      can be told from what is shown. */
  lemma ShownAlikeExactly(e: Endpoint, f: Endpoint)
    ensures Redact(e) == Redact(f) <==> DifferInSecrets(e, f)
  {
    hide RedactPeer, DifferInSecretsPeer;
    forall i | 0 <= i < |e.peers| && i < |f.peers| && e.peers[i].Some? && f.peers[i].Some? {
      PeersShownAlike(e.peers[i].value, f.peers[i].value);
    }
    if Redact(e) == Redact(f) {
      var a, b := Redact(e), Redact(f);
      assert |e.peers| == |a.peers| && |f.peers| == |b.peers|;
      assert b.(privateKey := f.privateKey, privateKeySet := f.privateKeySet, peers := f.peers) == f;
      assert a.(privateKey := f.privateKey, privateKeySet := f.privateKeySet, peers := f.peers) ==
        e.(privateKey := f.privateKey, privateKeySet := f.privateKeySet, peers := f.peers);
      forall i | 0 <= i < |e.peers|
        ensures if e.peers[i].Some? then f.peers[i].Some? && DifferInSecretsPeer(e.peers[i].value, f.peers[i].value) else f.peers[i].None?
      {
        assert a.peers[i] == b.peers[i];
      }
    }
    if DifferInSecrets(e, f) {
      assert Redact(e).peers == Redact(f).peers;
    }
  }

  // ---------------------------------------------------------------- the lookup tables of a merge

  /** The last pair stored for a public key, the empty text if there is none. */
  function ExtSecret(keys: seq<ExtKey>, public: string): string {
    if keys == [] then ""
    else if keys[|keys| - 1].publicKey == public then keys[|keys| - 1].privateKey
    else ExtSecret(keys[..|keys| - 1], public)
  }

  /** Private keys of the stored peers override the older format. */
  function LegacySecret(keys: seq<ExtKey>, stored: seq<Option<Peer>>, public: string): string {
    if stored == [] then ExtSecret(keys, public)
    else
      var last := stored[|stored| - 1];
      if last.Some? && last.value.clientPrivateKey != "" && last.value.publicKey == public
      then last.value.clientPrivateKey
      else LegacySecret(keys, stored[..|stored| - 1], public)
  }

  function PeerByKey(stored: seq<Option<Peer>>, public: string): Option<Peer> {
    if stored == [] then None
    else
      var last := stored[|stored| - 1];
      if last.Some? && last.value.publicKey != "" && last.value.publicKey == public then last
      else PeerByKey(stored[..|stored| - 1], public)
  }

  /** The stored peer a submitted peer is compared with: by key, else by position. */
  function OldPeer(stored: seq<Option<Peer>>, public: string, index: nat): Option<Peer> {
    var p := PeerByKey(stored, public);
    if p.Some? then p else if index < |stored| then stored[index] else None
  }

  function Blank(secret: string): bool {
    secret == "" || IsRedacted(secret)
  }

  predicate Cleared(p: Peer) {
    BoolValue(p.preSharedKeyClear, false) || (p.preSharedKey == "" && p.preSharedKeySet == Some(false))
  }

  function MergedPeer(keys: seq<ExtKey>, stored: seq<Option<Peer>>, index: nat, p: Peer): Peer {
    var oldPeer := OldPeer(stored, p.publicKey, index);
    var legacy := LegacySecret(keys, stored, p.publicKey);
    p.(clientPrivateKey :=
         if !Blank(p.clientPrivateKey) then p.clientPrivateKey
         else if legacy != "" then legacy
         else if oldPeer.Some? && oldPeer.value.clientPrivateKey != "" then oldPeer.value.clientPrivateKey
         else p.clientPrivateKey,
       preSharedKey :=
         if Cleared(p) then ""
         else if Blank(p.preSharedKey) && oldPeer.Some? && oldPeer.value.preSharedKey != ""
         then oldPeer.value.preSharedKey
         else p.preSharedKey,
       preSharedKeyClear := None)
  }

  function Merged(e: Endpoint, stored: Endpoint, keys: seq<ExtKey>): Endpoint {
    e.(privateKey := if Blank(e.privateKey) && stored.privateKey != "" then stored.privateKey else e.privateKey,
       peers := seq(|e.peers|, i requires 0 <= i < |e.peers| =>
         if e.peers[i].Some? then Some(MergedPeer(keys, stored.peers, i, e.peers[i].value)) else None))
  }

  function Lookup<T>(m: map<string, T>, key: string): Option<T> {
    if key in m then Some(m[key]) else None
  }

  /** What the merge does to a peer whatever is stored: a secret that is given is kept, a cleared one goes, and
      nothing but the secrets changes. */
  predicate KeepsSubmitted(p: Peer, q: Peer) {
    && (p.clientPrivateKey != "" && !IsRedacted(p.clientPrivateKey) ==> q.clientPrivateKey == p.clientPrivateKey)
    && (p.preSharedKeyClear == Some(true) || (p.preSharedKey == "" && p.preSharedKeySet == Some(false)) ==> q.preSharedKey == "")
    && (p.preSharedKeyClear != Some(true) && p.preSharedKey != "" && !IsRedacted(p.preSharedKey) ==> q.preSharedKey == p.preSharedKey)
    && q == p.(clientPrivateKey := q.clientPrivateKey, preSharedKey := q.preSharedKey, preSharedKeyClear := None)
  }

  /** `mergeWireGuardSecrets` with its two maps filled in passes over the stored endpoint. */
  method MergeSecrets(e: Endpoint, stored: Endpoint, keys: seq<ExtKey>) returns (r: Endpoint)
    ensures r == if e.kind == "wireguard" then Merged(e, stored, keys) else e
    ensures r == e.(privateKey := r.privateKey, peers := r.peers) && |r.peers| == |e.peers|
    ensures e.privateKey != "" && !IsRedacted(e.privateKey) ==> r.privateKey == e.privateKey
    ensures e.kind == "wireguard" && (e.privateKey == "" || IsRedacted(e.privateKey)) && stored.privateKey != "" ==>
      r.privateKey == stored.privateKey
    ensures forall i :: 0 <= i < |e.peers| && e.kind == "wireguard" ==>
      if e.peers[i].Some? then r.peers[i].Some? && KeepsSubmitted(e.peers[i].value, r.peers[i].value) else r.peers[i].None?
  {
    hide MergedPeer, LegacySecret, PeerByKey, KeepsSubmitted, IsRedacted;
    if e.kind != "wireguard" {
      return e;
    }
    r := e;
    if Blank(r.privateKey) && stored.privateKey != "" {
      r := r.(privateKey := stored.privateKey);
    }
    var legacySecrets, oldPeerByPublic := BuildLookups(stored, keys);
    var peers := e.peers;
    for index := 0 to |peers|
      invariant |peers| == |e.peers|
      invariant forall k :: 0 <= k < index ==> peers[k] == Merged(e, stored, keys).peers[k]
      invariant forall k :: 0 <= k < index ==>
        if e.peers[k].Some? then peers[k].Some? && KeepsSubmitted(e.peers[k].value, peers[k].value) else peers[k].None?
      invariant forall k :: index <= k < |peers| ==> peers[k] == e.peers[k]
    {
      if peers[index].None? {
        continue;
      }
      var peer := peers[index].value;
      var oldPeer := Lookup(oldPeerByPublic, peer.publicKey);
      if oldPeer.None? && index < |stored.peers| {
        oldPeer := stored.peers[index];
      }
      var merged := MergeOne(peer, oldPeer, Lookup(legacySecrets, peer.publicKey));
      assert merged == MergedPeer(keys, stored.peers, index, peer);
      peers := peers[index := Some(merged)];
    }
    assert peers == Merged(e, stored, keys).peers;
    r := r.(peers := peers);
  }

  method BuildLookups(stored: Endpoint, keys: seq<ExtKey>)
    returns (legacySecrets: map<string, string>, oldPeerByPublic: map<string, Peer>)
    ensures forall x :: Lookup(legacySecrets, x).Some? ==> Lookup(legacySecrets, x).value == LegacySecret(keys, stored.peers, x)
    ensures forall x :: Lookup(legacySecrets, x).None? ==> LegacySecret(keys, stored.peers, x) == ""
    ensures forall x :: Lookup(oldPeerByPublic, x) == PeerByKey(stored.peers, x)
  {
    hide LegacySecret, PeerByKey;
    legacySecrets, oldPeerByPublic := map[], map[];
    NoPeerYet(keys);
    for i := 0 to |keys|
      invariant forall x :: (if x in legacySecrets then legacySecrets[x] else "") == ExtSecret(keys[..i], x)
    {
      assert keys[..i + 1][..i] == keys[..i];
      legacySecrets := legacySecrets[keys[i].publicKey := keys[i].privateKey];
    }
    assert keys[..|keys|] == keys && stored.peers[..0] == [];
    for i := 0 to |stored.peers|
      invariant forall x :: (if x in legacySecrets then legacySecrets[x] else "") == LegacySecret(keys, stored.peers[..i], x)
      invariant forall x :: Lookup(oldPeerByPublic, x) == PeerByKey(stored.peers[..i], x)
    {
      ghost var secretsBefore, peersBefore := legacySecrets, oldPeerByPublic;
      if stored.peers[i].Some? {
        var peer := stored.peers[i].value;
        if peer.clientPrivateKey != "" {
          legacySecrets := legacySecrets[peer.publicKey := peer.clientPrivateKey];
        }
        if peer.publicKey != "" {
          oldPeerByPublic := oldPeerByPublic[peer.publicKey := peer];
        }
      }
      forall x
        ensures (if x in legacySecrets then legacySecrets[x] else "") == LegacySecret(keys, stored.peers[..i + 1], x)
        ensures Lookup(oldPeerByPublic, x) == PeerByKey(stored.peers[..i + 1], x)
      {
        OneMorePeer(keys, stored.peers, i, x);
        assert (if x in secretsBefore then secretsBefore[x] else "") == LegacySecret(keys, stored.peers[..i], x);
        assert Lookup(peersBefore, x) == PeerByKey(stored.peers[..i], x);
      }
    }
    assert stored.peers[..|stored.peers|] == stored.peers;
  }

  lemma NoPeerYet(keys: seq<ExtKey>)
    ensures forall x :: LegacySecret(keys, [], x) == ExtSecret(keys, x) && PeerByKey([], x) == None
  {
  }

  lemma OneMorePeer(keys: seq<ExtKey>, peers: seq<Option<Peer>>, i: nat, x: string)
    requires i < |peers|
    ensures LegacySecret(keys, peers[..i + 1], x) ==
      if peers[i].Some? && peers[i].value.clientPrivateKey != "" && peers[i].value.publicKey == x
      then peers[i].value.clientPrivateKey else LegacySecret(keys, peers[..i], x)
    ensures PeerByKey(peers[..i + 1], x) ==
      if peers[i].Some? && peers[i].value.publicKey != "" && peers[i].value.publicKey == x then peers[i] else PeerByKey(peers[..i], x)
  {
    assert peers[..i + 1][..i] == peers[..i];
  }

  method MergeOne(p: Peer, oldPeer: Option<Peer>, legacy: Option<string>) returns (peer: Peer)
    ensures forall keys, stored, index ::
      oldPeer == OldPeer(stored, p.publicKey, index) &&
      (if legacy.Some? then legacy.value else "") == LegacySecret(keys, stored, p.publicKey) ==>
      peer == MergedPeer(keys, stored, index, p)
    ensures KeepsSubmitted(p, peer)
  {
    hide IsRedacted;
    peer := p;
    if Blank(peer.clientPrivateKey) {
      if legacy.Some? && legacy.value != "" {
        peer := peer.(clientPrivateKey := legacy.value);
      } else if oldPeer.Some? && oldPeer.value.clientPrivateKey != "" {
        peer := peer.(clientPrivateKey := oldPeer.value.clientPrivateKey);
      }
    }
    var clear := BoolValue(peer.preSharedKeyClear, false) || (peer.preSharedKey == "" && peer.preSharedKeySet == Some(false));
    if clear {
      peer := peer.(preSharedKey := "");
    } else if Blank(peer.preSharedKey) && oldPeer.Some? && oldPeer.value.preSharedKey != "" {
      peer := peer.(preSharedKey := oldPeer.value.preSharedKey);
    }
    peer := peer.(preSharedKeyClear := None);
  }

  // ---------------------------------------------------------------- what a merge guarantees

  /** Every stored peer has a public key of its own. */
  predicate OwnKeys(stored: seq<Option<Peer>>) {
    && (forall i :: 0 <= i < |stored| && stored[i].Some? ==> stored[i].value.publicKey != "")
    && (forall i, j :: 0 <= i < j < |stored| && stored[i].Some? && stored[j].Some? ==>
        stored[i].value.publicKey != stored[j].value.publicKey)
  }

  lemma {:induction false} LookupsFindOwner(stored: seq<Option<Peer>>, i: nat)
    requires OwnKeys(stored) && i < |stored| && stored[i].Some?
    ensures PeerByKey(stored, stored[i].value.publicKey) == stored[i]
    ensures LegacySecret([], stored, stored[i].value.publicKey) == stored[i].value.clientPrivateKey
  {
    var last := |stored| - 1;
    if i < last {
      assert stored[..last][i] == stored[i];
      LookupsFindOwner(stored[..last], i);
    } else {
      NoOtherOwner(stored[..last], stored[i].value.publicKey);
    }
  }

  lemma {:induction false} NoOtherOwner(stored: seq<Option<Peer>>, public: string)
    requires forall i :: 0 <= i < |stored| && stored[i].Some? ==> stored[i].value.publicKey != public
    ensures LegacySecret([], stored, public) == ""
  {
    if stored != [] {
      NoOtherOwner(stored[..|stored| - 1], public);
    }
  }

  /** A surviving peer gets secrets from nobody but itself: whatever is submitted under its key, the result
      holds the submitted secret, its own stored one, or none. */
  lemma NeverForeign(stored: seq<Option<Peer>>, i: nat, index: nat, p: Peer)
    requires OwnKeys(stored) && i < |stored| && stored[i].Some?
    requires p.publicKey == stored[i].value.publicKey
    ensures var m := MergedPeer([], stored, index, p);
      && m.clientPrivateKey in {p.clientPrivateKey, stored[i].value.clientPrivateKey}
      && m.preSharedKey in {p.preSharedKey, stored[i].value.preSharedKey, ""}
  {
    LookupsFindOwner(stored, i);
  }

  /** A text that is neither the one submitted nor the peer's own stored one. */
  predicate Foreign(secret: string, submitted: string, own: Option<string>) {
    secret != "" && secret != submitted && Some(secret) != own
  }

  /** The public key is new, and another peer is stored where the peer stands. */
  predicate Stranger(stored: seq<Option<Peer>>, index: nat, public: string) {
    && (forall i :: 0 <= i < |stored| && stored[i].Some? ==> stored[i].value.publicKey != public)
    && index < |stored| && stored[index].Some?
  }

  /** A merged peer has another peer's secret exactly if its public key is not stored and it leaves a secret
      blank, without clearing it, that the peer stored at its position has. */
  lemma ForeignExactly(stored: seq<Option<Peer>>, index: nat, p: Peer)
    requires OwnKeys(stored)
    ensures var m := MergedPeer([], stored, index, p);
      var own := PeerByKey(stored, p.publicKey);
      && (Foreign(m.clientPrivateKey, p.clientPrivateKey, if own.Some? then Some(own.value.clientPrivateKey) else None) <==>
          && Stranger(stored, index, p.publicKey) && Blank(p.clientPrivateKey)
          && stored[index].value.clientPrivateKey !in {"", p.clientPrivateKey})
      && (Foreign(m.preSharedKey, p.preSharedKey, if own.Some? then Some(own.value.preSharedKey) else None) <==>
          && Stranger(stored, index, p.publicKey) && Blank(p.preSharedKey) && !Cleared(p)
          && stored[index].value.preSharedKey !in {"", p.preSharedKey})
  {
    hide IsRedacted;
    if i :| 0 <= i < |stored| && stored[i].Some? && stored[i].value.publicKey == p.publicKey {
      LookupsFindOwner(stored, i);
    } else {
      NoOtherOwner(stored, p.publicKey);
      NoPeerByKey(stored, p.publicKey);
    }
  }

  lemma {:induction false} NoPeerByKey(stored: seq<Option<Peer>>, public: string)
    requires forall i :: 0 <= i < |stored| && stored[i].Some? ==> stored[i].value.publicKey != public
    ensures PeerByKey(stored, public).None?
  {
    if stored != [] {
      NoPeerByKey(stored[..|stored| - 1], public);
    }
  }

  /** A peer whose public key was changed to "B", sent without secrets, takes both secrets of peer "A" that is
      stored at its position. */
  lemma StrangerTakesSecrets(a: Peer)
    requires a.publicKey == "A" && a.clientPrivateKey != "" && a.preSharedKey != ""
    ensures var p := a.(publicKey := "B", clientPrivateKey := "", preSharedKey := "", preSharedKeySet := None, preSharedKeyClear := None);
      var m := MergedPeer([], [Some(a)], 0, p);
      m.publicKey == "B" && m.clientPrivateKey == a.clientPrivateKey && m.preSharedKey == a.preSharedKey
  {
    NoOtherOwner([Some(a)], "B");
    NoPeerByKey([Some(a)], "B");
  }

  lemma RedactedIsBlank()
    ensures Blank(REDACTED)
  {
    assert TrimLeft(REDACTED) == REDACTED;
  }

  /** A peer submitted as it was shown gets its own secrets back, wherever it now stands in the list. */
  lemma RedactedPeerRestored(stored: seq<Option<Peer>>, i: nat, index: nat, p: Peer)
    requires OwnKeys(stored) && i < |stored| && stored[i].Some?
    requires var shown := RedactPeer(stored[i].value);
      && p.publicKey == shown.publicKey
      && p.clientPrivateKey == shown.clientPrivateKey
      && p.preSharedKey == shown.preSharedKey && p.preSharedKeySet == shown.preSharedKeySet
      && !BoolValue(p.preSharedKeyClear, false)
    ensures var m := MergedPeer([], stored, index, p);
      m.clientPrivateKey == stored[i].value.clientPrivateKey && m.preSharedKey == stored[i].value.preSharedKey
  {
    hide IsRedacted;
    LookupsFindOwner(stored, i);
    RedactedIsBlank();
  }

  /** Showing an endpoint, dropping and reordering its peers in any way and merging it back restores the
      private key of the endpoint and both secrets of every peer kept. */
  lemma RedactMergeRoundTrip(stored: Endpoint, kept: seq<nat>)
    requires OwnKeys(stored.peers)
    requires forall k :: 0 <= k < |kept| ==> kept[k] < |stored.peers| && stored.peers[kept[k]].Some?
    requires forall i :: 0 <= i < |stored.peers| && stored.peers[i].Some? ==>
               !BoolValue(stored.peers[i].value.preSharedKeyClear, false)
    ensures var shown := Redact(stored);
      var back := Merged(shown.(peers := seq(|kept|, k requires 0 <= k < |kept| && kept[k] < |shown.peers| => shown.peers[kept[k]])), stored, []);
      && back.privateKey == stored.privateKey
      && |back.peers| == |kept|
      && forall k :: 0 <= k < |kept| ==>
           && back.peers[k].Some?
           && back.peers[k].value.publicKey == stored.peers[kept[k]].value.publicKey
           && back.peers[k].value.clientPrivateKey == stored.peers[kept[k]].value.clientPrivateKey
           && back.peers[k].value.preSharedKey == stored.peers[kept[k]].value.preSharedKey
  {
    hide MergedPeer, IsRedacted;
    RedactedIsBlank();
    var shown := Redact(stored);
    forall k | 0 <= k < |kept|
      ensures var m := MergedPeer([], stored.peers, k, shown.peers[kept[k]].value);
        && m.publicKey == stored.peers[kept[k]].value.publicKey
        && m.clientPrivateKey == stored.peers[kept[k]].value.clientPrivateKey
        && m.preSharedKey == stored.peers[kept[k]].value.preSharedKey
    {
      RedactedPeerRestored(stored.peers, kept[k], k, shown.peers[kept[k]].value);
      MergeKeepsPublicKey(stored.peers, k, shown.peers[kept[k]].value);
    }
  }

  lemma MergeKeepsPublicKey(stored: seq<Option<Peer>>, index: nat, p: Peer)
    ensures MergedPeer([], stored, index, p).publicKey == p.publicKey
  {
  }
}
