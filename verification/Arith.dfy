/** Integer facts shared by the models: division, remainders and powers of two. */
module Arith {

  function Min(a: int, b: int): int { if a < b then a else b }

  function Max(a: int, b: int): int { if a < b then b else a }

  lemma MulMono(a: int, p: int, q: int)
    requires 0 <= a && p <= q
    ensures a * p <= a * q
  {
    assert a * q - a * p == a * (q - p);
  }

  lemma MulNext(a: int, p: int)
    ensures a * (p + 1) == a * p + a
  {
  }

  lemma Assoc<T>(a: seq<T>, b: seq<T>, c: seq<T>)
    ensures a + (b + c) == a + b + c
  {
  }

  /** Quotient and remainder are determined by the division equation. */
  lemma DivModUnique(m: int, a: int, q: int, r: int)
    requires 0 < a && m == a * q + r && 0 <= r < a
    ensures m / a == q && m % a == r
  {
    var d, e := m / a, m % a;
    assert m == a * d + e;
    if d < q {
      MulMono(a, d + 1, q);
    } else if q < d {
      MulMono(a, q + 1, d);
    }
  }

  lemma MultipleMod(q: int, a: int)
    requires 0 < a
    ensures a * q % a == 0 && a * q / a == q
  {
    DivModUnique(a * q, a, q, 0);
  }

  lemma AddMultipleMod(m: int, q: int, a: int)
    requires 0 < a
    ensures (m + a * q) % a == m % a
  {
    assert m + a * q == a * (m / a + q) + m % a by {
      assert a * (m / a + q) == a * (m / a) + a * q;
    }
    DivModUnique(m + a * q, a, m / a + q, m % a);
  }

  lemma AlignedSum(a: int, b: int, align: int)
    requires 0 < align && a % align == 0 && b % align == 0
    ensures (a + b) % align == 0
  {
    assert b == align * (b / align);
    AddMultipleMod(a, b / align, align);
  }

  /** Two multiples less than one step apart are equal. */
  lemma NoMultipleBetween(p: int, q: int, align: int)
    requires 0 < align && p % align == 0 && q % align == 0 && p <= q < p + align
    ensures p == q
  {
    assert p == align * (p / align);
    DivModUnique(q, align, p / align, q - p);
  }

  // ---------------------------------------------------------------- powers of two

  function Pow2(e: nat): (p: nat)
    ensures 0 < p
  {
    if e == 0 then 1 else 2 * Pow2(e - 1)
  }

  const TWO_TO_32: nat := 0x1_0000_0000

  lemma {:induction false} Pow2Add(a: nat, b: nat)
    ensures Pow2(a + b) == Pow2(a) * Pow2(b)
  {
    if 0 < a { Pow2Add(a - 1, b); }
  }

  lemma {:induction false} Pow2Mono(a: nat, b: nat)
    requires a < b
    ensures Pow2(a) < Pow2(b)
  {
    if a < b - 1 { Pow2Mono(a, b - 1); }
  }

  lemma Pow2Values()
    ensures Pow2(4) == 16 && Pow2(30) == 0x4000_0000 && 2 * Pow2(31) == Pow2(32) == TWO_TO_32
  {
    assert Pow2(2) == 2 * Pow2(1) == 4;
    Pow2Add(2, 2);
    Pow2Add(4, 4);
    Pow2Add(8, 8);
    Pow2Add(16, 16);
    Pow2Add(30, 2);
  }

  ghost predicate Divides(d: int, x: int)
  {
    exists m :: IsTimes(x, d, m)
  }

  predicate IsTimes(x: int, d: int, m: int) { x == d * m }

  lemma Quotient(d: int, x: int) returns (m: int)
    requires Divides(d, x)
    ensures x == d * m
  {
    m :| IsTimes(x, d, m);
  }

  /** A power of two that divides a product with an odd factor divides the other factor. */
  lemma {:induction false} OddFactor(a: int, b: int, e: nat)
    requires a % 2 == 1 && Divides(Pow2(e), a * b)
    ensures Divides(Pow2(e), b)
    decreases e
  {
    if e == 0 {
      assert IsTimes(b, Pow2(0), b);
    } else {
      var m := Quotient(Pow2(e), a * b);
      var h, b' := Pow2(e - 1), b / 2;
      HalveProduct(a, b, h, m);
      assert IsTimes(a * b', h, m);
      OddFactor(a, b', e - 1);
      var k := Quotient(h, b');
      assert b == 2 * (h * k) == (2 * h) * k;
      assert IsTimes(b, Pow2(e), k);
    }
  }

  lemma HalveProduct(a: int, b: int, h: int, m: int)
    requires a % 2 == 1 && a * b == (2 * h) * m
    ensures b % 2 == 0 && a * (b / 2) == h * m
  {
    assert (2 * h) * m == 2 * (h * m);
    OddTimesOdd(a, b);
    assert b == 2 * (b / 2);
    assert a * b == 2 * (a * (b / 2));
  }

  lemma OddTimesOdd(a: int, b: int)
    requires a % 2 == 1 && a * b % 2 == 0
    ensures b % 2 == 0
  {
    var p, q, r := a / 2, b / 2, b % 2;
    assert a == 2 * p + 1 && b == 2 * q + r;
    assert a * b == 2 * (p * b + q) + r;
  }

  /** No multiple of `d` lies strictly between 0 and `d`. */
  lemma SmallMultiple(d: int, x: int)
    requires 0 < d && 0 < x < d
    ensures !Divides(d, x)
  {
    if Divides(d, x) {
      var m := Quotient(d, x);
      DivModUnique(x, d, m, 0);
      DivModUnique(x, d, 0, x);
    }
  }

  /** Reducing before adding does not change the residue. */
  lemma ModAdd(x: int, k: int, n: int)
    requires 0 < n
    ensures (x % n + k) % n == (x + k) % n
  {
    assert x + k == (x % n + k) + n * (x / n);
    AddMultipleMod(x % n + k, x / n, n);
  }

  // ---------------------------------------------------------------- counting

  predicate Distinct<T(==)>(s: seq<T>)
  {
    forall i, j :: 0 <= i < j < |s| ==> s[i] != s[j]
  }

  lemma DistinctConcat<T>(a: seq<T>, b: seq<T>)
    requires Distinct(a) && Distinct(b) && forall x :: x in b ==> x !in a
    ensures Distinct(a + b)
  {
    var s := a + b;
    forall i, j | 0 <= i < j < |s| ensures s[i] != s[j] {
      if i < |a| <= j { assert s[j] in b && s[i] in a; }
    }
  }

  lemma DistinctApart<T>(a: seq<T>, b: seq<T>, x: T)
    requires Distinct(a + b)
    ensures !(x in a && x in b)
  {
    var s := a + b;
    forall i, k | 0 <= i < |a| && 0 <= k < |b| ensures a[i] != b[k] {
      assert s[i] == a[i] && s[|a| + k] == b[k];
    }
  }

  lemma DistinctDrop<T>(s: seq<T>, k: nat)
    requires Distinct(s) && k < |s|
    ensures Distinct(s[..k] + s[k + 1..])
  {
    var r := s[..k] + s[k + 1..];
    forall i, j | 0 <= i < j < |r| ensures r[i] != r[j] {
      assert r[i] == s[if i < k then i else i + 1] && r[j] == s[if j < k then j else j + 1];
    }
  }

  /** The numbers below `n`. */
  function Upto(n: nat): (r: set<int>)
    ensures forall x :: x in r <==> 0 <= x < n
    ensures |r| == n
  {
    if n == 0 then {} else Upto(n - 1) + {n - 1}
  }

  lemma {:induction false} DistinctCard<T>(s: seq<T>)
    requires Distinct(s)
    ensures |set x | x in s| == |s|
  {
    if s != [] {
      var t, c := s[..|s| - 1], s[|s| - 1];
      DistinctCard(t);
      assert s == t + [c];
      assert (set x | x in s) == (set x | x in t) + {c};
    }
  }

  lemma SubsetCard<T>(a: set<T>, b: set<T>)
    requires a <= b
    ensures |a| <= |b|
    ensures |a| == |b| ==> a == b
  {
    assert b == a + (b - a);
  }

  /** `n` distinct values below `n` are all the values below `n`. */
  lemma Pigeonhole(s: seq<int>)
    requires Distinct(s) && forall i :: 0 <= i < |s| ==> 0 <= s[i] < |s|
    ensures forall x :: 0 <= x < |s| ==> x in s
  {
    DistinctCard(s);
    var elems := set x | x in s;
    SubsetCard(elems, Upto(|s|));
    forall x | 0 <= x < |s| ensures x in s {
      assert x in Upto(|s|) && x in elems;
    }
  }

  /** A distinct sequence that holds exactly the values below `n` has length `n`. */
  lemma CoverLength(s: seq<int>, n: nat)
    requires Distinct(s) && forall x :: x in s <==> 0 <= x < n
    ensures |s| == n
  {
    DistinctCard(s);
    assert (set x | x in s) == Upto(n);
  }

  // ---------------------------------------------------------------- linear forms of products and remainders

  /** `n * size` as a repeated sum, which keeps the proofs about positions linear. */
  function Cells(n: nat, size: nat): nat
  {
    if n == 0 then 0 else Cells(n - 1, size) + size
  }

  lemma {:induction false} CellsMul(n: nat, size: nat)
    ensures Cells(n, size) == n * size
  {
    if n != 0 {
      CellsMul(n - 1, size);
      assert n * size == (n - 1) * size + size;
    }
  }

  lemma {:induction false} CellsMono(a: nat, b: nat, size: nat)
    requires a <= b
    ensures Cells(a, size) <= Cells(b, size)
    decreases b
  {
    if a != b { CellsMono(a, b - 1, size); }
  }

  lemma {:induction false} CellsAdd(a: nat, b: nat, size: nat)
    ensures Cells(a + b, size) == Cells(a, size) + Cells(b, size)
    decreases b
  {
    if b != 0 { CellsAdd(a, b - 1, size); }
  }

  /** Quotient and remainder of `r` by `size`, by repeated subtraction. */
  function Row(r: nat, size: nat): nat
    requires 0 < size
  {
    if r < size then 0 else 1 + Row(r - size, size)
  }

  function Col(r: nat, size: nat): (c: nat)
    requires 0 < size
    ensures c < size
  {
    if r < size then r else Col(r - size, size)
  }

  /** Position `r` splits in exactly one way into a group number and a place in the group. */
  lemma {:induction false} SameRound(size: nat, q: nat, delta: nat, r: nat)
    requires delta < size
    ensures Row(r, size) == q && Col(r, size) == delta <==> r == Cells(q, size) + delta
    decreases r
  {
    if size <= r {
      if q == 0 {
        if r == Cells(q, size) + delta { assert false; }
      } else {
        SameRound(size, q - 1, delta, r - size);
      }
    }
  }

  lemma SplitIsDivMod(r: nat, size: nat)
    requires 0 < size
    ensures Row(r, size) == r / size && Col(r, size) == r % size
  {
    var q := Row(r, size);
    SameRound(size, q, Col(r, size), r);
    CellsMul(q, size);
    DivModUnique(r, size, q, Col(r, size));
  }

  /** `x % n` for a value below `2 * n`. */
  function Wrap(x: int, n: int): (w: int)
    requires 0 <= x < n + n
    ensures 0 <= w < n
  {
    if x < n then x else x - n
  }

  lemma WrapIsMod(x: int, n: int)
    requires 0 <= x < n + n
    ensures x % n == Wrap(x, n)
  {
    if x < n { DivModUnique(x, n, 0, x); } else { DivModUnique(x, n, 1, x - n); }
  }

  /** A function changed at one argument. */
  function Upd<P(==,!new), T>(f: P -> T, p: P, x: T): (g: P -> T)
    ensures g(p) == x && forall q :: q != p ==> g(q) == f(q)
  {
    q => if q == p then x else f(q)
  }
}
