/** `UnionUintArray` and `DiffUintArray` (util/common/array.go), on which the sets of changed inbounds rest. */
module UintArrays {

  predicate NoDuplicates(xs: seq<nat>) {
    forall i, j :: 0 <= i < j < |xs| ==> xs[i] != xs[j]
  }

  function Members(xs: seq<nat>): set<nat> {
    set x | x in xs
  }

  /** The keys of a Go map in the unspecified order of its iteration. */
  method KeysOf(m: set<nat>) returns (res: seq<nat>)
    ensures NoDuplicates(res)
    ensures forall x :: x in res <==> x in m
  {
    res := [];
    var todo := m;
    while todo != {}
      invariant todo <= m && NoDuplicates(res)
      invariant forall x :: x in res <==> x in m - todo
    {
      var k :| k in todo;
      assert k !in res;
      todo := todo - {k};
      res := res + [k];
    }
  }

  method UnionUintArray(a: seq<nat>, b: seq<nat>) returns (res: seq<nat>)
    ensures NoDuplicates(res)
    ensures forall x :: x in res <==> x in a || x in b
  {
    var m: set<nat> := {};
    for i := 0 to |a|
      invariant forall x :: x in m <==> x in a[..i]
    {
      m := m + {a[i]};
    }
    for i := 0 to |b|
      invariant forall x :: x in m <==> x in a || x in b[..i]
    {
      m := m + {b[i]};
    }
    res := KeysOf(m);
  }

  /** Everything in exactly one of the two lists. */
  method DiffUintArray(a: seq<nat>, b: seq<nat>) returns (different: seq<nat>)
    ensures forall x :: x in different <==> (x in a) != (x in b)
  {
    different := [];
    var seen := SetOf(a);
    for i := 0 to |b|
      invariant forall x :: x in different <==> x in b[..i] && x !in a
    {
      if b[i] !in seen {
        different := different + [b[i]];
      }
    }
    seen := SetOf(b);
    for i := 0 to |a|
      invariant forall x :: x in different <==> (x in b && x !in a) || (x in a[..i] && x !in b)
    {
      if a[i] !in seen {
        different := different + [a[i]];
      }
    }
  }

  method SetOf(xs: seq<nat>) returns (m: set<nat>)
    ensures forall x :: x in m <==> x in xs
  {
    m := {};
    for i := 0 to |xs|
      invariant forall x :: x in m <==> x in xs[..i]
    {
      m := m + {xs[i]};
    }
  }
}
