/** What several components share. */
module Common {

  datatype Option<T> = None | Some(value: T)

  /** Conversion to int32, as Go's arithmetic on that type wraps. */
  function Wrap32(x: int): int {
    (x + 0x8000_0000) % 0x1_0000_0000 - 0x8000_0000
  }

  /** An int32 that differs from the exact value by a multiple of 2^32. */
  lemma WrapIsInt32(x: int)
    ensures -0x8000_0000 <= Wrap32(x) < 0x8000_0000
    ensures (x - Wrap32(x)) % 0x1_0000_0000 == 0
    ensures -0x8000_0000 <= x < 0x8000_0000 ==> Wrap32(x) == x
  {
    var q := (x + 0x8000_0000) / 0x1_0000_0000;
    assert x - Wrap32(x) == q * 0x1_0000_0000;
  }

  /** Wrapping at every addition is wrapping once. */
  lemma WrapAdd(x: int, y: int)
    ensures Wrap32(Wrap32(x) + y) == Wrap32(x + y)
  {
    var q := (x + 0x8000_0000) / 0x1_0000_0000;
    assert Wrap32(x) == x - q * 0x1_0000_0000;
  }

  function Min(a: int, b: int): int {
    if a < b then a else b
  }

  function Max(a: int, b: int): int {
    if a < b then b else a
  }

  function Sum(xs: seq<int>): int {
    if xs == [] then 0 else Sum(xs[..|xs| - 1]) + xs[|xs| - 1]
  }

  lemma {:induction false} SumSplits(xs: seq<int>, ys: seq<int>)
    ensures Sum([]) == 0 && (forall x :: Sum([x]) == x)
    ensures Sum(xs + ys) == Sum(xs) + Sum(ys)
    decreases |ys|
  {
    forall x ensures Sum([x]) == x {
      assert [x][..0] == [];
    }
    if ys == [] {
      assert xs + ys == xs;
    } else {
      var front := ys[..|ys| - 1];
      SumSplits(xs, front);
      assert (xs + ys)[..|xs + ys| - 1] == xs + front;
    }
  }

  predicate Distinct<T(==)>(s: seq<T>) {
    forall i, j | 0 <= i < j < |s| :: s[i] != s[j]
  }

  /** A set can be listed in some order. */
  lemma {:induction false} Listing<T>(s: set<T>) returns (q: seq<T>)
    ensures Distinct(q) && forall x :: x in q <==> x in s
    decreases |s|
  {
    if s == {} {
      q := [];
    } else {
      var x :| x in s;
      var rest := Listing(s - {x});
      q := [x] + rest;
    }
  }
}
