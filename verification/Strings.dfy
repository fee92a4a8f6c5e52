/** The parts of Go's `strings`, `sort` and `strconv` packages the modelled code leans on. */
module Strings {

  predicate IsSpace(c: char) {
    c in " \t\n\r" || c in "\U{000B}\U{000C}\U{0085}\U{00A0}\U{1680}\U{2028}\U{2029}\U{202F}\U{205F}\U{3000}" ||
    '\U{2000}' <= c <= '\U{200A}'
  }

  // ---------------------------------------------------------------- strings.TrimSpace

  function TrimLeft(s: string): (r: string)
    ensures |r| <= |s|
  {
    if s != "" && IsSpace(s[0]) then TrimLeft(s[1..]) else s
  }

  function TrimRight(s: string): (r: string)
    ensures |r| <= |s|
  {
    if s != "" && IsSpace(s[|s| - 1]) then TrimRight(s[..|s| - 1]) else s
  }

  function Trim(s: string): string {
    TrimRight(TrimLeft(s))
  }

  /** Text without white space at either end, which trimming leaves alone. */
  predicate Trimmed(s: string) {
    s != "" ==> !IsSpace(s[0]) && !IsSpace(s[|s| - 1])
  }

  lemma {:induction false} TrimRightTrims(s: string)
    requires s != "" ==> !IsSpace(s[0])
    ensures Trimmed(TrimRight(s))
  {
    if s != "" && IsSpace(s[|s| - 1]) {
      TrimRightTrims(s[..|s| - 1]);
    }
  }

  lemma {:induction false} TrimLeftTrims(s: string)
    ensures TrimLeft(s) != "" ==> !IsSpace(TrimLeft(s)[0])
  {
    if s != "" && IsSpace(s[0]) {
      TrimLeftTrims(s[1..]);
    }
  }

  lemma TrimTrims(s: string)
    ensures Trimmed(Trim(s))
    ensures Trim(Trim(s)) == Trim(s)
  {
    TrimLeftTrims(s);
    TrimRightTrims(TrimLeft(s));
  }

  /** `strings.ToLower` on ASCII letters. */
  function Lower(s: string): (r: string)
    ensures |r| == |s|
  {
    if s == "" then "" else [if 'A' <= s[0] <= 'Z' then s[0] + ' ' else s[0]] + Lower(s[1..])
  }

  /** A list of texts, each trimmed, without those that are blank. */
  function Kept(xs: seq<string>): seq<string> {
    if xs == [] then []
    else Kept(xs[..|xs| - 1]) + if Trim(xs[|xs| - 1]) != "" then [Trim(xs[|xs| - 1])] else []
  }

  // ---------------------------------------------------------------- strings.Join and strings.Split

  function Join(xs: seq<string>, sep: char): string {
    if xs == [] then ""
    else if |xs| == 1 then xs[0]
    else xs[0] + [sep] + Join(xs[1..], sep)
  }

  function IndexOf(s: string, c: char): (i: nat)
    ensures i <= |s|
    ensures forall k :: 0 <= k < i ==> s[k] != c
    ensures i < |s| ==> s[i] == c
  {
    if s == "" || s[0] == c then 0 else 1 + IndexOf(s[1..], c)
  }

  /** Split never returns an empty list: the empty text splits into one empty piece. */
  function Split(s: string, sep: char): (r: seq<string>)
    ensures r != []
    decreases |s|
  {
    var i := IndexOf(s, sep);
    if i == |s| then [s] else [s[..i]] + Split(s[i + 1..], sep)
  }

  predicate Free(s: string, c: char) {
    forall k :: 0 <= k < |s| ==> s[k] != c
  }

  predicate AllFree(xs: seq<string>, c: char) {
    forall k :: 0 <= k < |xs| ==> Free(xs[k], c)
  }

  lemma IndexOfUnique(s: string, c: char, i: nat)
    requires i <= |s| && Free(s[..i], c) && (i < |s| ==> s[i] == c)
    ensures IndexOf(s, c) == i
  {
  }

  lemma {:induction false} SplitJoin(xs: seq<string>, sep: char)
    requires xs != [] && AllFree(xs, sep)
    ensures Split(Join(xs, sep), sep) == xs
  {
    var s := Join(xs, sep);
    if |xs| == 1 {
      assert s[..|s|] == s;
      IndexOfUnique(s, sep, |s|);
    } else {
      assert s[..|xs[0]|] == xs[0];
      IndexOfUnique(s, sep, |xs[0]|);
      assert s[|xs[0]| + 1..] == Join(xs[1..], sep);
      SplitJoin(xs[1..], sep);
    }
  }

  lemma {:induction false} SplitPieces(s: string, sep: char)
    ensures AllFree(Split(s, sep), sep)
    ensures Join(Split(s, sep), sep) == s
    decreases |s|
  {
    var i := IndexOf(s, sep);
    if i < |s| {
      SplitPieces(s[i + 1..], sep);
      var rest := Split(s[i + 1..], sep);
      assert ([s[..i]] + rest)[1..] == rest;
      assert s == s[..i] + [sep] + s[i + 1..];
    }
  }

  lemma JoinInjective(xs: seq<string>, ys: seq<string>, sep: char)
    requires xs != [] && ys != []
    requires AllFree(xs, sep) && AllFree(ys, sep)
    ensures Join(xs, sep) == Join(ys, sep) <==> xs == ys
  {
    SplitJoin(xs, sep);
    SplitJoin(ys, sep);
  }

  lemma JoinEmpty(xs: seq<string>, sep: char)
    requires forall k :: 0 <= k < |xs| ==> xs[k] != ""
    ensures Join(xs, sep) == "" <==> xs == []
  {
  }

  // ---------------------------------------------------------------- sort.Strings

  predicate Le(a: string, b: string) {
    a == "" || (b != "" && (a[0] < b[0] || (a[0] == b[0] && Le(a[1..], b[1..]))))
  }

  lemma {:induction false} LeTotal(a: string, b: string)
    ensures Le(a, b) || Le(b, a)
  {
    if a != "" && b != "" && a[0] == b[0] {
      LeTotal(a[1..], b[1..]);
    }
  }

  lemma {:induction false} LeAntisymmetric(a: string, b: string)
    requires Le(a, b) && Le(b, a)
    ensures a == b
  {
    if a != "" {
      LeAntisymmetric(a[1..], b[1..]);
      assert a == [a[0]] + a[1..] && b == [b[0]] + b[1..];
    }
  }

  lemma {:induction false} LeTransitive(a: string, b: string, c: string)
    requires Le(a, b) && Le(b, c)
    ensures Le(a, c)
  {
    if a != "" && a[0] == b[0] == c[0] {
      LeTransitive(a[1..], b[1..], c[1..]);
    }
  }

  predicate IsSorted(xs: seq<string>) {
    forall i, j :: 0 <= i < j < |xs| ==> Le(xs[i], xs[j])
  }

  function Insert(x: string, xs: seq<string>): (r: seq<string>)
    ensures multiset(r) == multiset(xs) + multiset{x}
  {
    if xs == [] then [x]
    else if Le(x, xs[0]) then [x] + xs
    else
      assert xs == [xs[0]] + xs[1..];
      [xs[0]] + Insert(x, xs[1..])
  }

  function Sorted(xs: seq<string>): (r: seq<string>)
    ensures multiset(r) == multiset(xs)
  {
    if xs == [] then []
    else
      assert xs == [xs[0]] + xs[1..];
      Insert(xs[0], Sorted(xs[1..]))
  }

  lemma {:induction false} InsertKeepsSorted(x: string, xs: seq<string>)
    requires IsSorted(xs)
    ensures IsSorted(Insert(x, xs))
  {
    if xs != [] {
      LeTotal(x, xs[0]);
      if Le(x, xs[0]) {
        forall j | 0 <= j < |xs|
          ensures Le(x, xs[j])
        {
          if j > 0 {
            LeTransitive(x, xs[0], xs[j]);
          }
        }
      } else {
        InsertKeepsSorted(x, xs[1..]);
        var rest := Insert(x, xs[1..]);
        forall j | 0 <= j < |rest|
          ensures Le(xs[0], rest[j])
        {
          assert rest[j] in multiset(rest);
          assert rest[j] == x || rest[j] in xs[1..];
        }
      }
    }
  }

  lemma {:induction false} SortedIsSorted(xs: seq<string>)
    ensures IsSorted(Sorted(xs))
  {
    if xs != [] {
      SortedIsSorted(xs[1..]);
      InsertKeepsSorted(xs[0], Sorted(xs[1..]));
    }
  }

  lemma SortedHead(xs: seq<string>, x: string)
    requires IsSorted(xs) && x in xs
    ensures x == xs[0] || Le(xs[0], x)
  {
    hide Le;
    var i :| 0 <= i < |xs| && xs[i] == x;
  }

  lemma MultisetTail(xs: seq<string>)
    requires xs != []
    ensures multiset(xs[1..]) == multiset(xs) - multiset{xs[0]}
  {
    assert xs == [xs[0]] + xs[1..];
  }

  lemma SameHead(xs: seq<string>, ys: seq<string>)
    requires IsSorted(xs) && IsSorted(ys) && multiset(xs) == multiset(ys) && xs != []
    ensures ys != [] && xs[0] == ys[0]
  {
    hide Le, IsSorted;
    assert xs[0] in multiset(xs) && xs[0] in multiset(ys);
    assert ys[0] in multiset(ys) && ys[0] in multiset(xs);
    SortedHead(xs, ys[0]);
    SortedHead(ys, xs[0]);
    if xs[0] != ys[0] {
      LeAntisymmetric(xs[0], ys[0]);
    }
  }

  lemma {:induction false} SortedUnique(xs: seq<string>, ys: seq<string>)
    requires IsSorted(xs) && IsSorted(ys) && multiset(xs) == multiset(ys)
    ensures xs == ys
  {
    hide Le;
    if xs == [] {
      assert |ys| == |multiset(ys)|;
    } else {
      SameHead(xs, ys);
      MultisetTail(xs);
      MultisetTail(ys);
      SortedUnique(xs[1..], ys[1..]);
      assert xs == [xs[0]] + xs[1..] && ys == [ys[0]] + ys[1..];
    }
  }

  /** Sorting is a normal form: two lists sort alike exactly when they hold the same texts. */
  lemma SortedNormalForm(xs: seq<string>, ys: seq<string>)
    ensures Sorted(xs) == Sorted(ys) <==> multiset(xs) == multiset(ys)
  {
    SortedIsSorted(xs);
    SortedIsSorted(ys);
    if multiset(xs) == multiset(ys) {
      SortedUnique(Sorted(xs), Sorted(ys));
    } else {
      assert multiset(Sorted(xs)) != multiset(Sorted(ys));
    }
  }

  // ---------------------------------------------------------------- decimal numbers

  const DIGITS := "0123456789"

  function Decimal(n: nat): (r: string)
    ensures r != ""
  {
    if n < 10 then [DIGITS[n]] else Decimal(n / 10) + [DIGITS[n % 10]]
  }

  lemma {:induction false} DecimalDigits(n: nat)
    ensures forall k :: 0 <= k < |Decimal(n)| ==> Decimal(n)[k] in DIGITS
  {
    if n >= 10 {
      DecimalDigits(n / 10);
    }
  }

  lemma DigitsDiffer(i: nat, j: nat)
    requires i < 10 && j < 10 && DIGITS[i] == DIGITS[j]
    ensures i == j
  {
  }

  lemma {:induction false} DecimalInjective(m: nat, n: nat)
    requires Decimal(m) == Decimal(n)
    ensures m == n
  {
    var s := Decimal(m);
    assert DIGITS[m % 10] == s[|s| - 1] == DIGITS[n % 10];
    DigitsDiffer(m % 10, n % 10);
    if m >= 10 && n >= 10 {
      assert Decimal(m / 10) == s[..|s| - 1] == Decimal(n / 10);
      DecimalInjective(m / 10, n / 10);
    }
  }
}
