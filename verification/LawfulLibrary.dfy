/**
 The assumption made about the parser and printer of prefixes can be met: prefixes written as family, decimal address
 and decimal length tell each other apart.
 */
module LawfulLibrary {
  import opened Prefixes
  import opened Strings
  import opened WireGuardModel
  import opened Wrappers

  function Parts(p: Prefix): seq<string> {
    [if p.family == V4 then "ipv4" else "ipv6", Decimal(p.addr), Decimal(p.bits)]
  }

  function Text(p: Prefix): string {
    Join(Parts(p), '/')
  }

  lemma PartsFree(p: Prefix)
    ensures AllFree(Parts(p), '/')
  {
    DecimalDigits(p.addr);
    DecimalDigits(p.bits);
    assert '/' !in DIGITS;
    forall k | 0 <= k < 3
      ensures Free(Parts(p)[k], '/')
    {
    }
  }

  lemma TextTellsPrefix(p: Prefix, q: Prefix)
    ensures Text(p) == Text(q) ==> p == q
  {
    if Text(p) == Text(q) {
      PartsFree(p);
      PartsFree(q);
      JoinInjective(Parts(p), Parts(q), '/');
      assert Parts(p)[0] == Parts(q)[0] && Parts(p)[1] == Parts(q)[1] && Parts(p)[2] == Parts(q)[2];
      DecimalInjective(p.addr, q.addr);
      DecimalInjective(p.bits, q.bits);
      FamilyTold(p, q);
    }
  }

  lemma FamilyTold(p: Prefix, q: Prefix)
    requires Parts(p)[0] == Parts(q)[0]
    ensures p.family == q.family
  {
    assert "ipv4"[3] != "ipv6"[3];
  }

  ghost predicate Written(x: string) {
    exists p: Prefix :: Text(p) == x
  }

  ghost function Read(x: string): Option<Prefix> {
    if Written(x) then var p: Prefix :| Text(p) == x; Some(p)
    else if x == "0.0.0.0/0" then Some(Prefix(V4, 0, 0))
    else if x == "::/0" then Some(Prefix(V6, 0, 0))
    else None
  }

  lemma FirstChar(p: Prefix)
    ensures Text(p) != "" && Text(p)[0] == 'i'
  {
    var s := Split(Text(p), '/');
    PartsFree(p);
    SplitJoin(Parts(p), '/');
  }

  /** What is written is read back. */
  lemma ReadsBack(p: Prefix)
    ensures Read(Text(p)) == Some(p)
  {
    assert Written(Text(p));
    TextTellsPrefix(Read(Text(p)).value, p);
  }

  lemma DefaultRoutesRead()
    ensures Read("0.0.0.0/0") == Some(Prefix(V4, 0, 0)) && Read("::/0") == Some(Prefix(V6, 0, 0))
  {
    hide Text;
    forall p: Prefix
      ensures Text(p) != "0.0.0.0/0" && Text(p) != "::/0"
    {
      FirstChar(p);
    }
  }

  lemma LawfulLibraryExists()
    ensures exists lib :: Lawful(lib)
  {
    hide Text, Read;
    var lib := Library(x => Read(x), (p: Prefix) => Text(p), x => true, x => x);
    forall p: Prefix
      ensures lib.printPrefix(p) != "" && lib.parsePrefix(lib.printPrefix(p)) == Some(p)
    {
      FirstChar(p);
      ReadsBack(p);
    }
    DefaultRoutesRead();
    assert Lawful(lib);
  }
}
