/**
 * The point-to-point schedule of `ncclP2pSchedule` (nccl/src/init.cc).
 *
 * Ranks are cut into groups of equal size that never straddle nodes.  Every rank enumerates
 * group distances by triangular numbers modulo a power of two, skips those that are not below
 * the number of groups, and inside each accepted distance walks the ranks of the peer group.
 */
module P2pSchedule {
  import opened Arith

  // ---------------------------------------------------------------- the triangular walk

  /** The quadratic formula (k*k+k)/2 as the running sum the loop computes. */
  function Tri(k: nat): nat
  {
    if k == 0 then 0 else Tri(k - 1) + k
  }

  lemma {:induction false} TriClosed(k: nat)
    ensures 2 * Tri(k) == k * (k + 1)
  {
    if k != 0 {
      TriClosed(k - 1);
      assert k * (k + 1) == (k - 1) * k + 2 * k;
    }
  }

  lemma TriDifference(i: nat, j: nat)
    ensures 2 * (Tri(j) - Tri(i)) == (j - i) * (i + j + 1)
  {
    TriClosed(i);
    TriClosed(j);
    assert (j - i) * (i + j + 1) == j * (j + 1) - i * (i + 1);
  }

  /** Equal residues make a power of two divide a product of two small factors, one of them odd. */
  lemma TriCongruent(i: nat, j: nat, e: nat)
    requires Tri(i) % Pow2(e) == Tri(j) % Pow2(e)
    ensures Divides(Pow2(e + 1), (j - i) * (i + j + 1))
  {
    var p := Pow2(e);
    var m := Tri(j) / p - Tri(i) / p;
    SameResidue(Tri(i), Tri(j), p);
    TriDifference(i, j);
    assert 2 * (p * m) == (2 * p) * m;
    assert IsTimes((j - i) * (i + j + 1), Pow2(e + 1), m);
  }

  lemma SmallOddFactor(a: int, b: int, e: nat)
    requires a % 2 == 1 && 0 < b < Pow2(e)
    ensures !Divides(Pow2(e), a * b)
  {
    if Divides(Pow2(e), a * b) {
      OddFactor(a, b, e);
      SmallMultiple(Pow2(e), b);
    }
  }

  lemma SmallFactors(a: int, b: int, e: nat)
    requires 0 < a < Pow2(e) && 0 < b < Pow2(e) && (a + b) % 2 == 1
    ensures !Divides(Pow2(e), a * b)
  {
    if a % 2 == 1 {
      SmallOddFactor(a, b, e);
    } else {
      SmallOddFactor(b, a, e);
      Commute(a, b);
    }
  }

  lemma Commute(a: int, b: int)
    ensures a * b == b * a
  {
  }

  /** Triangular numbers below a power of two are distinct modulo that power. */
  lemma TriInjective(i: nat, j: nat, e: nat)
    requires i < j < Pow2(e)
    ensures Tri(i) % Pow2(e) != Tri(j) % Pow2(e)
  {
    SmallFactors(j - i, i + j + 1, e + 1);
    if Tri(i) % Pow2(e) == Tri(j) % Pow2(e) {
      TriCongruent(i, j, e);
    }
  }

  lemma SameResidue(x: int, y: int, p: int)
    requires 0 < p && x % p == y % p
    ensures y - x == p * (y / p - x / p)
  {
    assert x == p * (x / p) + x % p && y == p * (y / p) + y % p;
    assert p * (y / p - x / p) == p * (y / p) - p * (x / p);
  }

  /** The group distances accepted in the first `k` turns of the walk. */
  function Accepted(k: nat, nGroups: nat, p: nat): seq<int>
    requires 0 < p
  {
    if k == 0 then []
    else
      var d := Tri(k - 1) % p;
      Accepted(k - 1, nGroups, p) + if d < nGroups then [d] else []
  }

  lemma {:induction false} AcceptedMembers(k: nat, nGroups: nat, p: nat, d: int)
    requires 0 < p
    ensures d in Accepted(k, nGroups, p) <==> d < nGroups && exists i: nat :: i < k && d == Tri(i) % p
  {
    if k != 0 {
      AcceptedMembers(k - 1, nGroups, p, d);
      assert d in Accepted(k, nGroups, p) <==>
             d in Accepted(k - 1, nGroups, p) || (d < nGroups && d == Tri(k - 1) % p);
      if d < nGroups && exists i: nat :: i < k && d == Tri(i) % p {
        var i: nat :| i < k && d == Tri(i) % p;
        assert i == k - 1 || i < k - 1;
      }
    }
  }

  lemma {:induction false} AcceptedDistinct(k: nat, nGroups: nat, e: nat)
    requires k <= Pow2(e)
    ensures Distinct(Accepted(k, nGroups, Pow2(e)))
  {
    if k != 0 {
      AcceptedDistinct(k - 1, nGroups, e);
      var d, front := Tri(k - 1) % Pow2(e), Accepted(k - 1, nGroups, Pow2(e));
      AcceptedMembers(k - 1, nGroups, Pow2(e), d);
      if d in front {
        var i: nat :| i < k - 1 && d == Tri(i) % Pow2(e);
        TriInjective(i, k - 1, e);
      }
    }
  }

  /** Every residue is hit: an injective walk over a finite range is onto. */
  lemma WalkOnto(e: nat, d: int)
    requires 0 <= d < Pow2(e)
    ensures exists i: nat :: i < Pow2(e) && d == Tri(i) % Pow2(e)
  {
    var p := Pow2(e);
    var walk: seq<int> := seq(p, i requires 0 <= i < p => Tri(i) % p);
    forall i, j | 0 <= i < j < p ensures walk[i] != walk[j] {
      TriInjective(i, j, e);
    }
    Pigeonhole(walk);
    assert d in walk;
  }

  /** The full walk accepts every distance below `nGroups` exactly once. */
  lemma WalkPermutes(nGroups: nat, e: nat)
    requires nGroups <= Pow2(e)
    ensures var a := Accepted(Pow2(e), nGroups, Pow2(e));
            |a| == nGroups && Distinct(a) && forall d :: d in a <==> 0 <= d < nGroups
  {
    var p := Pow2(e);
    var a := Accepted(p, nGroups, p);
    AcceptedDistinct(p, nGroups, e);
    forall d ensures d in a <==> 0 <= d < nGroups {
      AcceptedMembers(p, nGroups, p, d);
      if 0 <= d < nGroups { WalkOnto(e, d); }
    }
    CoverLength(a, nGroups);
  }

  // ---------------------------------------------------------------- groups

  function GcdOf(a: nat, b: nat): nat
    decreases b
  {
    if b == 0 then a else GcdOf(b, a % b)
  }

  /** Euclid's loop: a common divisor that every common divisor divides. */
  method Gcd(x: nat, y: nat) returns (a: nat)
    requires 0 < x
    ensures a == GcdOf(x, y) && 0 < a && Divides(a, x) && Divides(a, y)
    ensures forall d :: Divides(d, x) && Divides(d, y) ==> Divides(d, a)
  {
    a := x;
    var b: nat := y;
    while b != 0
      invariant 0 < a && GcdOf(a, b) == GcdOf(x, y)
      invariant forall d :: Divides(d, x) && Divides(d, y) <==> Divides(d, a) && Divides(d, b)
      decreases b
    {
      forall d ensures Divides(d, a) && Divides(d, b) <==> Divides(d, b) && Divides(d, a % b) {
        GcdStep(d, a, b);
      }
      var temp: nat := b;
      b := a % b;
      a := temp;
    }
    assert IsTimes(a, a, 1) && IsTimes(0, a, 0);
    assert Divides(a, a) && Divides(a, 0);
    forall d | Divides(d, x) && Divides(d, y) ensures Divides(d, a) {
      assert Divides(d, x) && Divides(d, y) <==> Divides(d, a) && Divides(d, b);
    }
  }

  lemma GcdStep(d: int, a: nat, b: nat)
    requires 0 < b
    ensures Divides(d, a) && Divides(d, b) <==> Divides(d, b) && Divides(d, a % b)
  {
    var q := a / b;
    assert a == b * q + a % b;
    if Divides(d, b) {
      var m := Quotient(d, b);
      assert b * q == d * (m * q);
      if Divides(d, a) {
        var k := Quotient(d, a);
        assert a % b == d * (k - m * q);
        assert IsTimes(a % b, d, k - m * q);
      }
      if Divides(d, a % b) {
        var k := Quotient(d, a % b);
        assert a == d * (k + m * q);
        assert IsTimes(a, d, k + m * q);
      }
    }
  }

  lemma DividesTrans(a: int, b: int, c: int)
    requires Divides(a, b) && Divides(b, c)
    ensures Divides(a, c)
  {
    var m := Quotient(a, b);
    var k := Quotient(b, c);
    assert c == (a * m) * k == a * (m * k);
    assert IsTimes(c, a, m * k);
  }

  lemma DividesMod(d: int, x: int)
    requires 0 < d
    ensures Divides(d, x) <==> x % d == 0
  {
    if Divides(d, x) {
      var m := Quotient(d, x);
      MultipleMod(m, d);
    }
    if x % d == 0 {
      assert IsTimes(x, d, x / d);
    }
  }

  /** `nodes[n]` lists the global ranks hosted by node `n` in local order. */
  type Layout = seq<seq<int>>

  function Flat(nodes: Layout): seq<int>
  {
    if nodes == [] then [] else Flat(nodes[..|nodes| - 1]) + nodes[|nodes| - 1]
  }

  /** Position of the first rank of node `n` in the node-by-node order. */
  function Offset(nodes: Layout, n: nat): nat
    requires n <= |nodes|
  {
    |Flat(nodes[..n])|
  }

  /** Nodes are non-empty and together host every rank exactly once. */
  ghost predicate WellFormed(nodes: Layout)
  {
    && nodes != []
    && (forall n :: 0 <= n < |nodes| ==> nodes[n] != [])
    && Distinct(Flat(nodes))
    && (forall i :: 0 <= i < |Flat(nodes)| ==> 0 <= Flat(nodes)[i] < |Flat(nodes)|)
  }

  lemma OffsetNext(nodes: Layout, n: nat)
    requires n < |nodes|
    ensures Offset(nodes, n + 1) == Offset(nodes, n) + |nodes[n]|
    ensures Flat(nodes[..n + 1]) == Flat(nodes[..n]) + nodes[n]
  {
    assert nodes[..n + 1][..n] == nodes[..n];
  }

  lemma {:induction false} FlatPrefix(nodes: Layout, n: nat)
    requires n <= |nodes|
    ensures Flat(nodes[..n]) <= Flat(nodes)
    decreases |nodes| - n
  {
    if n == |nodes| {
      assert nodes[..n] == nodes;
    } else {
      OffsetNext(nodes, n);
      FlatPrefix(nodes, n + 1);
    }
  }

  /** Local rank `l` of node `n` stands at position `Offset(n) + l`. */
  lemma FlatAt(nodes: Layout, n: nat, l: nat)
    requires n < |nodes| && l < |nodes[n]|
    ensures Offset(nodes, n) + l < |Flat(nodes)|
    ensures Flat(nodes)[Offset(nodes, n) + l] == nodes[n][l]
  {
    OffsetNext(nodes, n);
    FlatPrefix(nodes, n + 1);
  }

  /** The group size after looking at the first `n` nodes. */
  function SizeAfter(nodes: Layout, start: nat, n: nat): nat
    requires n <= |nodes|
  {
    if n == 0 then start
    else
      var size, localRanks := SizeAfter(nodes, start, n - 1), |nodes[n - 1]|;
      if size != 0 && localRanks % size == 0 && size <= localRanks then size else GcdOf(size, localRanks)
  }

  /** The group size all ranks agree on: it depends on the layout and the parameter alone. */
  function GroupSizeOf(nodes: Layout, param: nat, maxLocalRanks: nat): nat
  {
    SizeAfter(nodes, if |nodes| > 1 then param else maxLocalRanks, |nodes|)
  }

  /** `d` divides `start` and the number of ranks of the first `n` nodes. */
  ghost predicate Common(d: int, start: nat, nodes: Layout, n: nat)
    requires n <= |nodes|
  {
    Divides(d, start) && forall i :: 0 <= i < n ==> Divides(d, |nodes[i]|)
  }

  /** The greatest size that divides `start` and the number of ranks of every node. */
  ghost predicate IsGroupSize(size: nat, start: nat, nodes: Layout)
  {
    0 < size && Common(size, start, nodes, |nodes|) && forall d :: Common(d, start, nodes, |nodes|) ==> Divides(d, size)
  }

  /** When it divides the ranks of every node, the parameter itself is the group size. */
  lemma WholeStart(size: nat, start: nat, nodes: Layout)
    requires IsGroupSize(size, start, nodes) && 0 < start
    requires forall n :: 0 <= n < |nodes| ==> |nodes[n]| % start == 0
    ensures size == start
  {
    forall n | 0 <= n < |nodes| ensures Divides(start, |nodes[n]|) { DividesMod(start, |nodes[n]|); }
    assert IsTimes(start, start, 1) && Common(start, start, nodes, |nodes|);
    var m := Quotient(size, start);
    var k := Quotient(start, size);
    MulMono(size, if m < 1 then m else 1, 1);
    MulMono(start, if k < 1 then k else 1, 1);
    MulMono(size, 1, if m < 1 then 1 else m);
    MulMono(start, 1, if k < 1 then 1 else k);
  }

  /** The greatest common divisor with one more node. */
  lemma CommonGcd(size: nat, g: nat, start: nat, nodes: Layout, n: nat)
    requires n < |nodes| && Common(size, start, nodes, n) && Divides(g, size) && Divides(g, |nodes[n]|)
    requires forall d :: Common(d, start, nodes, n) ==> Divides(d, size)
    requires forall d :: Divides(d, size) && Divides(d, |nodes[n]|) ==> Divides(d, g)
    ensures Common(g, start, nodes, n + 1) && forall d :: Common(d, start, nodes, n + 1) ==> Divides(d, g)
  {
    DividesTrans(g, size, start);
    forall i | 0 <= i < n ensures Divides(g, |nodes[i]|) { DividesTrans(g, size, |nodes[i]|); }
    forall d | Common(d, start, nodes, n + 1) ensures Divides(d, g) { assert Common(d, start, nodes, n); }
  }

  /** The group-size loop: after it the size divides the number of ranks of every node. */
  method GroupSize(nodes: Layout, param: nat, maxLocalRanks: nat) returns (size: nat)
    requires WellFormed(nodes) && 0 < param && 0 < maxLocalRanks
    ensures size == GroupSizeOf(nodes, param, maxLocalRanks)
    ensures 0 < size && forall n :: 0 <= n < |nodes| ==> |nodes[n]| % size == 0
    ensures IsGroupSize(size, if |nodes| == 1 then maxLocalRanks else param, nodes)
  {
    size := if |nodes| > 1 then param else maxLocalRanks;
    ghost var start := size;
    assert IsTimes(size, size, 1);
    for node := 0 to |nodes|
      invariant 0 < size && size == SizeAfter(nodes, start, node)
      invariant Common(size, start, nodes, node)
      invariant forall d :: Common(d, start, nodes, node) ==> Divides(d, size)
    {
      var localRanks := |nodes[node]|;
      if localRanks % size != 0 || localRanks < size {
        var g := Gcd(size, localRanks);
        CommonGcd(size, g, start, nodes, node);
        size := g;
      } else {
        DividesMod(size, localRanks);
        CommonGcd(size, size, start, nodes, node);
      }
    }
    forall n | 0 <= n < |nodes| ensures |nodes[n]| % size == 0 {
      DividesMod(size, |nodes[n]|);
    }
  }

  // ---------------------------------------------------------------- the schedule as a function

  /** `pow2Up`: the exponent of the least power of two that is not below `n`. */
  function Log2Up(n: nat): (e: nat)
    ensures n <= Pow2(e) && (e != 0 ==> Pow2(e - 1) < n)
  {
    Log2From(n, 0)
  }

  function Log2From(n: nat, e: nat): (r: nat)
    requires e != 0 ==> Pow2(e - 1) < n
    ensures n <= Pow2(r) && (r != 0 ==> Pow2(r - 1) < n)
    decreases n - Pow2(e)
  {
    if n <= Pow2(e) then e else Log2From(n, e + 1)
  }

  /** The accepted group distances, in the order every rank uses them. */
  function Deltas(nGroups: nat): (a: seq<int>)
    ensures |a| == nGroups && Distinct(a) && forall d :: d in a <==> 0 <= d < nGroups
  {
    var e := Log2Up(nGroups);
    WalkPermutes(nGroups, e);
    Accepted(Pow2(e), nGroups, Pow2(e))
  }

  /** The number of rounds up to group `n` ends before the next group's cells begin. */
  lemma CellInRange(size: nat, nGroups: nat, group: nat, local: nat)
    requires group < nGroups && local < size
    ensures Cells(group, size) + local < Cells(nGroups, size)
  {
    CellsMono(group + 1, nGroups, size);
  }

  lemma RoundInRange(round: nat, size: nat, nGroups: nat)
    requires 0 < size && round < Cells(nGroups, size)
    ensures Row(round, size) < nGroups
  {
    SameRound(size, Row(round, size), Col(round, size), round);
    if nGroups <= Row(round, size) { CellsMono(nGroups, Row(round, size), size); }
  }

  datatype Round = Round(sendRank: int, recvRank: int)

  /** How far to go forward from `from` to reach `to` on a ring of `n`. */
  function Gap(from: nat, to: nat, n: nat): (d: nat)
    requires from < n && to < n
    ensures d < n
  {
    Wrap(to - from + n, n)
  }

  /**
   * What all ranks share: the ranks in node-by-node order, cut into groups of `size`, and the
   * order in which group distances are used.
   */
  datatype Plan = Plan(flat: seq<int>, size: nat, deltas: seq<int>) {

    ghost predicate Valid()
    {
      0 < size && 0 < |deltas| && |flat| == Cells(|deltas|, size) &&
      forall i :: 0 <= i < |deltas| ==> 0 <= deltas[i] < |deltas|
    }

    /** Member `l` of group `g`. */
    ghost predicate Member(g: int, l: int)
    {
      0 <= g < |deltas| && 0 <= l < size
    }

    function Rank(g: nat, l: nat): int
      requires Valid() && Member(g, l)
    {
      CellInRange(size, |deltas|, g, l);
      flat[Cells(g, size) + l]
    }

    /** Peer that member `(g, l)` sends to at group distance `d` and local distance `delta`. */
    function Send(g: nat, l: nat, d: nat, delta: nat): int
      requires Valid() && Member(g, l) && Member(d, delta)
    {
      Rank(Wrap(g + d, |deltas|), Wrap(l + delta, size))
    }

    /** Peer that member `(g, l)` receives from in the same round. */
    function Recv(g: nat, l: nat, d: nat, delta: nat): int
      requires Valid() && Member(g, l) && Member(d, delta)
    {
      Rank(Wrap(g - d + |deltas|, |deltas|), Wrap(l - delta + size, size))
    }

    /** The group distance of round `r`. */
    function Distance(r: nat): (d: nat)
      requires Valid() && r < |flat|
      ensures d < |deltas|
    {
      RoundInRange(r, size, |deltas|);
      deltas[Row(r, size)]
    }

    /** Both peers of member `(g, l)` at group distance `d` and local distance `delta`. */
    ghost function Peers(g: nat, l: nat, d: int, delta: int): Round
    {
      if Valid() && Member(g, l) && Member(d, delta) then Round(Send(g, l, d, delta), Recv(g, l, d, delta))
      else Round(-1, -1)
    }

    /** What member `(g, l)` does in round `r`: distance number `r / groupSize`, local step `r % groupSize`. */
    function RoundFor(g: nat, l: nat, r: nat): Round
      requires Valid() && Member(g, l) && r < |flat|
    {
      Round(Send(g, l, Distance(r), Col(r, size)), Recv(g, l, Distance(r), Col(r, size)))
    }

    /** Distinct places hold distinct ranks. */
    lemma SameCell(g: nat, l: nat, h: nat, m: nat)
      requires Valid() && Distinct(flat) && Member(g, l) && Member(h, m)
      ensures Rank(g, l) == Rank(h, m) <==> g == h && l == m
    {
      CellInRange(size, |deltas|, g, l);
      CellInRange(size, |deltas|, h, m);
      SameRound(size, g, l, Cells(g, size) + l);
      SameRound(size, h, m, Cells(h, size) + m);
    }

    /** One round, two ranks: `(g,l)` sends to `(h,m)` exactly when `(h,m)` receives from `(g,l)`. */
    lemma PairAgrees(g: nat, l: nat, h: nat, m: nat, d: nat, delta: nat)
      requires Valid() && Distinct(flat) && Member(g, l) && Member(h, m) && Member(d, delta)
      ensures Send(g, l, d, delta) == Rank(h, m) <==> Recv(h, m, d, delta) == Rank(g, l)
    {
      SameCell(Wrap(g + d, |deltas|), Wrap(l + delta, size), h, m);
      SameCell(Wrap(h - d + |deltas|, |deltas|), Wrap(m - delta + size, size), g, l);
    }

    lemma SendIs(g: nat, l: nat, h: nat, m: nat, d: nat, delta: nat)
      requires Valid() && Distinct(flat) && Member(g, l) && Member(h, m) && Member(d, delta)
      ensures Send(g, l, d, delta) == Rank(h, m) <==> d == Gap(g, h, |deltas|) && delta == Gap(l, m, size)
    {
      SameCell(Wrap(g + d, |deltas|), Wrap(l + delta, size), h, m);
    }

    lemma RecvIs(g: nat, l: nat, h: nat, m: nat, d: nat, delta: nat)
      requires Valid() && Distinct(flat) && Member(g, l) && Member(h, m) && Member(d, delta)
      ensures Recv(g, l, d, delta) == Rank(h, m) <==> d == Gap(h, g, |deltas|) && delta == Gap(m, l, size)
    {
      PairAgrees(h, m, g, l, d, delta);
      SendIs(h, m, g, l, d, delta);
    }

    /** Exactly one round combines distance number `q` with local step `delta`. */
    lemma RoundNumber(q: nat, delta: nat, r: nat)
      requires Valid() && Distinct(deltas) && Member(q, delta) && r < |flat|
      ensures Distance(r) == deltas[q] && Col(r, size) == delta <==> r == Cells(q, size) + delta
    {
      RoundInRange(r, size, |deltas|);
      SameRound(size, q, delta, r);
    }
  }

  // ---------------------------------------------------------------- what the schedule promises

  /** `deltas` lists every group distance once. */
  ghost predicate AllDistances(p: Plan)
  {
    Distinct(p.deltas) && forall d :: 0 <= d < |p.deltas| ==> d in p.deltas
  }

  /** In every round, a sends to b exactly when b receives from a. */
  lemma SendRecvAgree(p: Plan, g: nat, l: nat, h: nat, m: nat, r: nat)
    requires p.Valid() && Distinct(p.flat) && p.Member(g, l) && p.Member(h, m) && r < |p.flat|
    ensures p.RoundFor(g, l, r).sendRank == p.Rank(h, m) <==> p.RoundFor(h, m, r).recvRank == p.Rank(g, l)
  {
    p.PairAgrees(g, l, h, m, p.Distance(r), Col(r, p.size));
  }

  /** Every peer is sent to in exactly one round. */
  lemma SendsToEveryone(p: Plan, g: nat, l: nat, h: nat, m: nat) returns (round: nat)
    requires p.Valid() && Distinct(p.flat) && AllDistances(p) && p.Member(g, l) && p.Member(h, m)
    ensures round < |p.flat|
    ensures forall r: nat :: r < |p.flat| ==> (p.RoundFor(g, l, r).sendRank == p.Rank(h, m) <==> r == round)
  {
    var d, delta := Gap(g, h, |p.deltas|), Gap(l, m, p.size);
    assert d in p.deltas;
    var q: nat :| q < |p.deltas| && p.deltas[q] == d;
    CellInRange(p.size, |p.deltas|, q, delta);
    round := Cells(q, p.size) + delta;
    forall r: nat | r < |p.flat| ensures p.RoundFor(g, l, r).sendRank == p.Rank(h, m) <==> r == round {
      p.SendIs(g, l, h, m, p.Distance(r), Col(r, p.size));
      p.RoundNumber(q, delta, r);
    }
  }

  /** Every peer is received from in exactly one round. */
  lemma ReceivesFromEveryone(p: Plan, g: nat, l: nat, h: nat, m: nat) returns (round: nat)
    requires p.Valid() && Distinct(p.flat) && AllDistances(p) && p.Member(g, l) && p.Member(h, m)
    ensures round < |p.flat|
    ensures forall r: nat :: r < |p.flat| ==> (p.RoundFor(g, l, r).recvRank == p.Rank(h, m) <==> r == round)
  {
    var d, delta := Gap(h, g, |p.deltas|), Gap(m, l, p.size);
    assert d in p.deltas;
    var q: nat :| q < |p.deltas| && p.deltas[q] == d;
    CellInRange(p.size, |p.deltas|, q, delta);
    round := Cells(q, p.size) + delta;
    forall r: nat | r < |p.flat| ensures p.RoundFor(g, l, r).recvRank == p.Rank(h, m) <==> r == round {
      p.RecvIs(g, l, h, m, p.Distance(r), Col(r, p.size));
      p.RoundNumber(q, delta, r);
    }
  }

  // ---------------------------------------------------------------- building it

  /** `toNode[g]` and `toLocal[g]` place group `g` at position `g * groupSize` of the node-by-node order. */
  ghost predicate GroupTables(nodes: Layout, size: nat, toNode: seq<nat>, toLocal: seq<nat>)
  {
    |toNode| == |toLocal| &&
    forall g: nat :: g < |toNode| ==> Placed(nodes, size, toNode[g], toLocal[g], g)
  }

  lemma TableExtend(nodes: Layout, size: nat, toNode: seq<nat>, toLocal: seq<nat>, n: nat, g: nat)
    requires 0 < size && n < |nodes| && GroupTables(nodes, size, toNode, toLocal)
    requires g < |nodes[n]| / size && g <= |toNode|
    requires Cells(|toNode| - g, size) == Offset(nodes, n)
    ensures 0 <= g * size && GroupTables(nodes, size, toNode + [n], toLocal + [g * size])
  {
    GroupFits(size, |toNode| - g, g, |nodes[n]|);
    assert Placed(nodes, size, n, g * size, |toNode|);
  }

  /** The group that starts at local offset `local` of node `n` has number `g`. */
  ghost predicate Placed(nodes: Layout, size: nat, n: nat, local: nat, g: nat)
  {
    n < |nodes| && local + size <= |nodes[n]| && Offset(nodes, n) + local == Cells(g, size)
  }

  lemma GroupFits(size: nat, first: nat, g: nat, ranks: nat)
    requires 0 < size && g < ranks / size
    ensures g * size == Cells(g, size) && Cells(g, size) + size <= ranks
    ensures Cells(first + g, size) == Cells(first, size) + Cells(g, size)
  {
    CellsMul(g, size);
    CellsAdd(first, g, size);
    CellsMono(g + 1, ranks / size, size);
    SplitIsDivMod(ranks, size);
    SameRound(size, ranks / size, ranks % size, ranks);
  }

  /** The inner loop of group creation: one entry for each group of node `n`. */
  method AddNode(nodes: Layout, size: nat, n: nat, toNode0: seq<nat>, toLocal0: seq<nat>)
    returns (toNode: seq<nat>, toLocal: seq<nat>)
    requires 0 < size && n < |nodes| && |nodes[n]| % size == 0
    requires GroupTables(nodes, size, toNode0, toLocal0) && Cells(|toNode0|, size) == Offset(nodes, n)
    ensures GroupTables(nodes, size, toNode, toLocal)
    ensures |toNode| == |toNode0| + |nodes[n]| / size && Cells(|toNode|, size) == Offset(nodes, n + 1)
  {
    toNode, toLocal := toNode0, toLocal0;
    for g := 0 to |nodes[n]| / size
      invariant GroupTables(nodes, size, toNode, toLocal)
      invariant |toNode| == |toNode0| + g
    {
      TableExtend(nodes, size, toNode, toLocal, n, g);
      toLocal := toLocal + [g * size];
      toNode := toNode + [n];
    }
    OffsetNext(nodes, n);
    NodeEnds(size, |toNode0|, |nodes[n]|);
  }

  lemma NodeEnds(size: nat, first: nat, ranks: nat)
    requires 0 < size && ranks % size == 0
    ensures Cells(first + ranks / size, size) == Cells(first, size) + ranks
  {
    CellsAdd(first, ranks / size, size);
    SplitIsDivMod(ranks, size);
    SameRound(size, ranks / size, 0, ranks);
  }

  /** The loop over nodes that fills `groupToNode` and `groupToLocal` and finds the own group. */
  method BuildGroups(nodes: Layout, size: nat, node: nat, localRank: nat)
    returns (ok: bool, toNode: seq<nat>, toLocal: seq<nat>, group: nat)
    requires 0 < size && node < |nodes| && localRank < |nodes[node]|
    requires forall n :: 0 <= n < |nodes| ==> |nodes[n]| % size == 0
    ensures ok && GroupTables(nodes, size, toNode, toLocal)
    ensures Cells(|toNode|, size) == |Flat(nodes)|
    ensures Cells(group, size) + localRank % size == Offset(nodes, node) + localRank
  {
    ok, toNode, toLocal, group := true, [], [], localRank / size;
    ghost var before: nat := 0;
    for n := 0 to |nodes|
      invariant GroupTables(nodes, size, toNode, toLocal)
      invariant Cells(|toNode|, size) == Offset(nodes, n)
      invariant group == localRank / size + before
      invariant if n <= node then before == |toNode| else Cells(before, size) == Offset(nodes, node)
    {
      if |nodes[n]| % size != 0 {
        return false, toNode, toLocal, group;
      }
      toNode, toLocal := AddNode(nodes, size, n, toNode, toLocal);
      if n < node {
        group := group + |nodes[n]| / size;
        before := before + |nodes[n]| / size;
      }
    }
    assert nodes[..|nodes|] == nodes;
    OwnPosition(size, before, localRank);
  }

  lemma OwnPosition(size: nat, before: nat, localRank: nat)
    requires 0 < size
    ensures Cells(localRank / size + before, size) + localRank % size == Cells(before, size) + localRank
  {
    CellsAdd(localRank / size, before, size);
    SplitIsDivMod(localRank, size);
    SameRound(size, localRank / size, localRank % size, localRank);
  }

  /** The lookup `nodeRanks[groupToNode[g]].localRankToRank[groupToLocal[g] + l]` and its bounds. */
  predicate Listed(nodes: Layout, toNode: seq<nat>, toLocal: seq<nat>, g: nat, l: nat)
  {
    g < |toNode| && g < |toLocal| && toNode[g] < |nodes| && toLocal[g] + l < |nodes[toNode[g]]|
  }

  function Lookup(nodes: Layout, toNode: seq<nat>, toLocal: seq<nat>, g: nat, l: nat): int
    requires Listed(nodes, toNode, toLocal, g, l)
  {
    nodes[toNode[g]][toLocal[g] + l]
  }

  /** Through the tables, member `l` of group `g` is the rank at its place of the flat order. */
  ghost predicate Tables(nodes: Layout, p: Plan, toNode: seq<nat>, toLocal: seq<nat>)
  {
    && p.Valid() && |toNode| == |p.deltas|
    && forall g: nat, l: nat :: p.Member(g, l) ==>
         Listed(nodes, toNode, toLocal, g, l) && Lookup(nodes, toNode, toLocal, g, l) == p.Rank(g, l)
  }

  lemma TablesReady(nodes: Layout, p: Plan, toNode: seq<nat>, toLocal: seq<nat>)
    requires p.Valid() && p.flat == Flat(nodes)
    requires GroupTables(nodes, p.size, toNode, toLocal) && |toNode| == |p.deltas|
    ensures Tables(nodes, p, toNode, toLocal)
  {
    forall g: nat, l: nat | p.Member(g, l)
      ensures Listed(nodes, toNode, toLocal, g, l) && Lookup(nodes, toNode, toLocal, g, l) == p.Rank(g, l)
    {
      FlatAt(nodes, toNode[g], toLocal[g] + l);
    }
  }

  /** The first `k` rounds of group distance `d`, when `f(d, delta)` is what each of them holds. */
  function Block(f: (int, int) -> Round, d: int, k: nat): seq<Round>
  {
    if k == 0 then [] else Block(f, d, k - 1) + [f(d, k - 1)]
  }

  /** The rounds of a list of group distances, one block after the other. */
  function Blocks(f: (int, int) -> Round, size: nat, ds: seq<int>): seq<Round>
  {
    if ds == [] then [] else Blocks(f, size, ds[..|ds| - 1]) + Block(f, ds[|ds| - 1], size)
  }

  lemma {:induction false} BlockAt(f: (int, int) -> Round, d: int, k: nat, delta: nat)
    requires delta < k
    ensures |Block(f, d, k)| == k && Block(f, d, k)[delta] == f(d, delta)
  {
    if 1 < k { BlockAt(f, d, k - 1, if delta < k - 1 then delta else 0); }
  }

  lemma {:induction false} BlocksLength(f: (int, int) -> Round, size: nat, ds: seq<int>)
    requires 0 < size
    ensures |Blocks(f, size, ds)| == Cells(|ds|, size)
  {
    if ds != [] {
      BlocksLength(f, size, ds[..|ds| - 1]);
      BlockAt(f, ds[|ds| - 1], size, 0);
    }
  }

  /** Round number `q * groupSize + delta` belongs to distance number `q`. */
  lemma {:induction false} BlocksAt(f: (int, int) -> Round, size: nat, ds: seq<int>, q: nat, delta: nat, r: nat)
    requires q < |ds| && delta < size && r == Cells(q, size) + delta
    ensures r < |Blocks(f, size, ds)| && Blocks(f, size, ds)[r] == f(ds[q], delta)
    decreases |ds|
  {
    var front := ds[..|ds| - 1];
    BlocksLength(f, size, front);
    if q < |ds| - 1 {
      BlocksAt(f, size, front, q, delta, r);
    } else {
      BlockAt(f, ds[q], size, delta);
    }
  }

  /** `f(d, delta)` is what the tables give member `(g, l)` at those distances. */
  ghost predicate Emits(
      f: (int, int) -> Round, nodes: Layout, size: nat, toNode: seq<nat>, toLocal: seq<nat>, g: nat, l: nat)
  {
    g < |toNode| && l < size &&
    forall d: nat, delta: nat :: d < |toNode| && delta < size ==>
      Matches(f, nodes, size, toNode, toLocal, g, l, d, delta)
  }

  ghost predicate Matches(f: (int, int) -> Round, nodes: Layout, size: nat, toNode: seq<nat>, toLocal: seq<nat>,
                          g: nat, l: nat, d: nat, delta: nat)
    requires g < |toNode| && l < size && d < |toNode| && delta < size
  {
    var sendGroup, recvGroup := Wrap(g + d, |toNode|), Wrap(g - d + |toNode|, |toNode|);
    var sendLocal, recvLocal := Wrap(l + delta, size), Wrap(l - delta + size, size);
    && Listed(nodes, toNode, toLocal, sendGroup, sendLocal) && Listed(nodes, toNode, toLocal, recvGroup, recvLocal)
    && f(d, delta) == Round(Lookup(nodes, toNode, toLocal, sendGroup, sendLocal),
                            Lookup(nodes, toNode, toLocal, recvGroup, recvLocal))
  }

  /** The inner loop of the schedule: the rounds of one accepted group distance. */
  method EmitDistance(nodes: Layout, size: nat, toNode: seq<nat>, toLocal: seq<nat>, group: nat, local: nat,
                      groupDelta: nat, sched0: seq<Round>, ghost f: (int, int) -> Round)
    returns (sched: seq<Round>)
    requires Emits(f, nodes, size, toNode, toLocal, group, local) && groupDelta < |toNode|
    ensures sched == sched0 + Block(f, groupDelta, size)
  {
    var nGroups := |toNode|;
    var sendGroup, recvGroup := (group + groupDelta) % nGroups, (group - groupDelta + nGroups) % nGroups;
    WrapIsMod(group + groupDelta, nGroups);
    WrapIsMod(group - groupDelta + nGroups, nGroups);
    sched := sched0;
    for delta := 0 to size
      invariant sched == sched0 + Block(f, groupDelta, delta)
    {
      WrapIsMod(local + delta, size);
      WrapIsMod(local - delta + size, size);
      var sendLocal, recvLocal := (local + delta) % size, (local - delta + size) % size;
      assert Matches(f, nodes, size, toNode, toLocal, group, local, groupDelta, delta);
      sched := sched + [Round(Lookup(nodes, toNode, toLocal, sendGroup, sendLocal),
                              Lookup(nodes, toNode, toLocal, recvGroup, recvLocal))];
    }
  }

  /** The triangular walk over group distances. */
  method EmitRounds(nodes: Layout, size: nat, toNode: seq<nat>, toLocal: seq<nat>, group: nat, local: nat,
                    pow2: nat, ghost f: (int, int) -> Round)
    returns (sched: seq<Round>)
    requires 0 < pow2 && Emits(f, nodes, size, toNode, toLocal, group, local)
    ensures sched == Blocks(f, size, Accepted(pow2, |toNode|, pow2))
  {
    var nGroups := |toNode|;
    var groupRound, groupDelta := 0, 0;
    ghost var ds: seq<int> := [];
    sched := [];
    while groupRound != pow2
      invariant groupRound <= pow2 && groupDelta == Tri(groupRound) % pow2
      invariant ds == Accepted(groupRound, nGroups, pow2)
      invariant sched == Blocks(f, size, ds)
    {
      if groupDelta < nGroups {
        sched := EmitDistance(nodes, size, toNode, toLocal, group, local, groupDelta, sched, f);
        assert (ds + [groupDelta])[..|ds|] == ds;
        ds := ds + [groupDelta];
      }
      ModAdd(Tri(groupRound), groupRound + 1, pow2);
      groupRound := groupRound + 1;
      groupDelta := (groupDelta + groupRound) % pow2;
    }
  }

  /** The plan of a layout: a function of the layout and the parameter alone. */
  function PlanOf(nodes: Layout, param: nat, maxLocalRanks: nat): Plan
    requires 0 < GroupSizeOf(nodes, param, maxLocalRanks)
  {
    var size := GroupSizeOf(nodes, param, maxLocalRanks);
    Plan(Flat(nodes), size, Deltas(GroupCount(|Flat(nodes)|, size)))
  }

  function GroupCount(nRanks: nat, size: nat): nat
    requires 0 < size
  {
    nRanks / size
  }

  /**
   * `ncclP2pSchedule` for the rank at `(node, localRank)`.  The error exits are in the body;
   * the contract says none of them is ever taken.
   */
  method ScheduleAt(nodes: Layout, param: nat, maxLocalRanks: nat, node: nat, localRank: nat, nRanks: nat)
    returns (ok: bool, sched: seq<Round>, ghost p: Plan, ghost g: nat, ghost l: nat)
    requires WellFormed(nodes) && 0 < param && 0 < maxLocalRanks && nRanks == |Flat(nodes)|
    requires node < |nodes| && localRank < |nodes[node]|
    ensures 0 < GroupSizeOf(nodes, param, maxLocalRanks) && p == PlanOf(nodes, param, maxLocalRanks)
    ensures p.Valid() && AllDistances(p) && Distinct(p.flat)
    ensures IsGroupSize(p.size, if |nodes| == 1 then maxLocalRanks else param, nodes) && Walk(p.deltas, |p.deltas|)
    ensures p.Member(g, l) && p.Rank(g, l) == nodes[node][localRank]
    ensures ok && |sched| == nRanks && forall r: nat :: r < nRanks ==> sched[r] == p.RoundFor(g, l, r)
  {
    var size := GroupSize(nodes, param, maxLocalRanks);
    var valid, toNode, toLocal, group := BuildGroups(nodes, size, node, localRank);
    var local, nGroups := localRank % size, nRanks / size;
    FlatAt(nodes, node, localRank);
    OwnCell(size, |toNode|, group, local);
    p, g, l := PlanOf(nodes, param, maxLocalRanks), group, local;
    PlanFacts(nodes, p, nGroups);
    DeltasWalk(nGroups);
    RankIs(p, g, l, Offset(nodes, node) + localRank);
    if !valid || |toNode| != nGroups {
      return false, [], p, g, l;
    }
    TablesReady(nodes, p, toNode, toLocal);
    sched := EmitSchedule(nodes, p, size, toNode, toLocal, group, local, Pow2(Log2Up(nGroups)));
    ok := |sched| == nRanks;
  }

  /** The walk emits the schedule of the plan. */
  method EmitSchedule(nodes: Layout, ghost p: Plan, size: nat, toNode: seq<nat>, toLocal: seq<nat>,
                      group: nat, local: nat, pow2: nat)
    returns (sched: seq<Round>)
    requires size == p.size && 0 < pow2 && Accepted(pow2, |toNode|, pow2) == p.deltas
    requires Tables(nodes, p, toNode, toLocal) && p.Member(group, local)
    ensures |sched| == |p.flat| && forall r: nat :: r < |sched| ==> sched[r] == p.RoundFor(group, local, r)
  {
    ghost var f := (d: int, delta: int) => p.Peers(group, local, d, delta);
    EmitsPlan(nodes, p, toNode, toLocal, group, local, f);
    sched := EmitRounds(nodes, size, toNode, toLocal, group, local, pow2, f);
    BlocksLength(f, size, p.deltas);
    forall r: nat | r < |sched| ensures sched[r] == p.RoundFor(group, local, r) {
      RoundInRange(r, size, |p.deltas|);
      SameRound(size, Row(r, size), Col(r, size), r);
      BlocksAt(f, size, p.deltas, Row(r, size), Col(r, size), r);
    }
  }

  lemma EmitsPlan(nodes: Layout, p: Plan, toNode: seq<nat>, toLocal: seq<nat>, g: nat, l: nat, f: (int, int) -> Round)
    requires Tables(nodes, p, toNode, toLocal) && p.Member(g, l)
    requires forall d, delta :: f(d, delta) == p.Peers(g, l, d, delta)
    ensures Emits(f, nodes, p.size, toNode, toLocal, g, l)
  {
    forall d: nat, delta: nat | d < |toNode| && delta < p.size
      ensures Matches(f, nodes, p.size, toNode, toLocal, g, l, d, delta)
    {
      assert p.Member(Wrap(g + d, |toNode|), Wrap(l + delta, p.size));
      assert p.Member(Wrap(g - d + |toNode|, |toNode|), Wrap(l - delta + p.size, p.size));
    }
  }

  lemma RankIs(p: Plan, g: nat, l: nat, i: nat)
    requires p.Valid() && p.Member(g, l) && i == Cells(g, p.size) + l
    ensures i < |p.flat| && p.Rank(g, l) == p.flat[i]
  {
    CellInRange(p.size, |p.deltas|, g, l);
  }

  lemma PlanFacts(nodes: Layout, p: Plan, nGroups: nat)
    requires WellFormed(nodes) && 0 < p.size && 0 < nGroups && Cells(nGroups, p.size) == |Flat(nodes)|
    requires p.flat == Flat(nodes) && p.deltas == Deltas(nGroups)
    ensures p.Valid() && AllDistances(p) && Distinct(p.flat)
  {
    forall i | 0 <= i < nGroups ensures 0 <= p.deltas[i] < nGroups {
      assert p.deltas[i] in p.deltas;
    }
  }

  lemma OwnCell(size: nat, nGroups: nat, group: nat, local: nat)
    requires local < size && Cells(group, size) + local < Cells(nGroups, size)
    ensures Cells(nGroups, size) / size == nGroups && group < nGroups
  {
    SplitIsDivMod(Cells(nGroups, size), size);
    SameRound(size, nGroups, 0, Cells(nGroups, size));
    SameRound(size, group, local, Cells(group, size) + local);
    RoundInRange(Cells(group, size) + local, size, nGroups);
  }

  // ---------------------------------------------------------------- finding a peer's round

  /** Every rank is a member of some group. */
  lemma RankHasPlace(p: Plan, rank: int) returns (h: nat, m: nat)
    requires p.Valid() && rank in p.flat
    ensures p.Member(h, m) && p.Rank(h, m) == rank
  {
    var i: nat :| i < |p.flat| && p.flat[i] == rank;
    h, m := Row(i, p.size), Col(i, p.size);
    RoundInRange(i, p.size, |p.deltas|);
    SameRound(p.size, h, m, i);
  }

  /** The unbounded search for a peer's round when a p2p task is enqueued: it always ends, at the only match. */
  method FindRound(sched: seq<Round>, ghost p: Plan, ghost g: nat, ghost l: nat, peer: int, isSend: bool)
    returns (round: nat)
    requires p.Valid() && Distinct(p.flat) && AllDistances(p) && p.Member(g, l) && peer in p.flat
    requires |sched| == |p.flat| && forall r: nat :: r < |sched| ==> sched[r] == p.RoundFor(g, l, r)
    ensures round < |sched|
    ensures forall r: nat :: r < |sched| ==>
              (peer == (if isSend then sched[r].sendRank else sched[r].recvRank) <==> r == round)
  {
    ghost var h, m := RankHasPlace(p, peer);
    ghost var goal: nat;
    if isSend { goal := SendsToEveryone(p, g, l, h, m); } else { goal := ReceivesFromEveryone(p, g, l, h, m); }
    round := 0;
    while peer != (if isSend then sched[round].sendRank else sched[round].recvRank)
      invariant round <= goal
      decreases goal - round
    {
      round := round + 1;
    }
  }

  /** `rank` is the peer of exactly one round, for sends and for receives. */
  ghost predicate OncePeer(sched: seq<Round>, rank: int)
  {
    && (exists r: nat :: SendRound(sched, rank, r)) && (exists r: nat :: RecvRound(sched, rank, r))
  }

  ghost predicate SendRound(sched: seq<Round>, rank: int, r: nat)
  {
    r < |sched| && sched[r].sendRank == rank && forall q: nat :: q < |sched| && sched[q].sendRank == rank ==> q == r
  }

  ghost predicate RecvRound(sched: seq<Round>, rank: int, r: nat)
  {
    r < |sched| && sched[r].recvRank == rank && forall q: nat :: q < |sched| && sched[q].recvRank == rank ==> q == r
  }

  /** `sched` is the plan's schedule for the rank of place `(g, l)`. */
  ghost predicate Follows(p: Plan, g: nat, l: nat, rank: int, sched: seq<Round>)
  {
    && p.Valid() && p.Member(g, l) && p.Rank(g, l) == rank && |sched| == |p.flat|
    && forall r: nat :: r < |sched| ==> sched[r] == p.RoundFor(g, l, r)
  }

  lemma FollowsOnce(p: Plan, g: nat, l: nat, rank: int, sched: seq<Round>, peer: int)
    requires Follows(p, g, l, rank, sched) && AllDistances(p) && Distinct(p.flat) && peer in p.flat
    ensures OncePeer(sched, peer)
  {
    var h, m := RankHasPlace(p, peer);
    var a := SendsToEveryone(p, g, l, h, m);
    var b := ReceivesFromEveryone(p, g, l, h, m);
    assert SendRound(sched, peer, a) && RecvRound(sched, peer, b);
  }

  // ---------------------------------------------------------------- the schedule in closed form

  /** `ks` are the turns of the walk that are accepted, and `ds` the distances they give. */
  ghost predicate WalkBy(ds: seq<int>, ks: seq<nat>, k: nat, nGroups: nat, pow2: nat)
    requires 0 < pow2
  {
    && |ks| == |ds| && (forall i, j :: 0 <= i < j < |ks| ==> ks[i] < ks[j])
    && (forall i: nat :: i in ks <==> i < k && i * (i + 1) / 2 % pow2 < nGroups)
    && (forall i :: 0 <= i < |ds| ==> ds[i] == ks[i] * (ks[i] + 1) / 2 % pow2)
  }

  lemma TriHalf(k: nat)
    ensures Tri(k) == k * (k + 1) / 2
  {
    TriClosed(k);
  }

  lemma {:induction false} AcceptedWalk(k: nat, nGroups: nat, pow2: nat) returns (ks: seq<nat>)
    requires 0 < pow2
    ensures WalkBy(Accepted(k, nGroups, pow2), ks, k, nGroups, pow2)
  {
    if k == 0 {
      ks := [];
    } else {
      var before := AcceptedWalk(k - 1, nGroups, pow2);
      var d := Tri(k - 1) % pow2;
      TriHalf(k - 1);
      ks := before + if d < nGroups then [k - 1] else [];
      forall i: nat ensures i in ks <==> i < k && i * (i + 1) / 2 % pow2 < nGroups {
        assert i in ks <==> i in before || (i == k - 1 && d < nGroups);
      }
      forall i, j | 0 <= i < j < |ks| ensures ks[i] < ks[j] { assert ks[i] in before; }
    }
  }

  /** The distances in the order in which they are used, `pow2` being the least power of two not below `nGroups`. */
  ghost predicate Walk(ds: seq<int>, nGroups: nat)
  {
    exists e: nat, ks: seq<nat> :: WalkOf(ds, nGroups, e, ks)
  }

  ghost predicate WalkOf(ds: seq<int>, nGroups: nat, e: nat, ks: seq<nat>)
  {
    nGroups <= Pow2(e) && (e != 0 ==> Pow2(e - 1) < nGroups) && WalkBy(ds, ks, Pow2(e), nGroups, Pow2(e))
  }

  lemma DeltasWalk(nGroups: nat)
    ensures Walk(Deltas(nGroups), nGroups)
  {
    var e := Log2Up(nGroups);
    var ks := AcceptedWalk(Pow2(e), nGroups, Pow2(e));
    assert WalkOf(Deltas(nGroups), nGroups, e, ks);
  }

  function PlaceAt(flat: seq<int>, group: int, local: int, size: nat): int
  {
    var i := group * size + local;
    if 0 <= i < |flat| then flat[i] else -1
  }

  /** Round `r` of the rank at position `i` of the node-by-node order `flat`. */
  ghost predicate RoundIs(round: Round, flat: seq<int>, size: nat, ds: seq<int>, i: nat, r: nat)
  {
    0 < size && r / size < |ds| && PeersAre(round, flat, size, |ds|, i / size, i % size, ds[r / size], r % size)
  }

  /** The peers of local rank `l` of group `g` of `n`, at group distance `d` and local distance `delta`. */
  predicate PeersAre(round: Round, flat: seq<int>, size: nat, n: nat, g: int, l: int, d: int, delta: int)
    requires 0 < size && 0 < n
  {
    && round.sendRank == PlaceAt(flat, (g + d) % n, (l + delta) % size, size)
    && round.recvRank == PlaceAt(flat, (g - d + n) % n, (l - delta + size) % size, size)
  }

  lemma RankPlace(p: Plan, g: nat, l: nat)
    requires p.Valid() && p.Member(g, l)
    ensures p.Rank(g, l) == PlaceAt(p.flat, g, l, p.size)
  {
    CellsMul(g, p.size);
    CellInRange(p.size, |p.deltas|, g, l);
  }

  lemma PeersOfMember(p: Plan, g: nat, l: nat, d: nat, delta: nat)
    requires p.Valid() && p.Member(g, l) && p.Member(d, delta)
    ensures PeersAre(Round(p.Send(g, l, d, delta), p.Recv(g, l, d, delta)), p.flat, p.size, |p.deltas|, g, l, d, delta)
  {
    var n, size := |p.deltas|, p.size;
    WrapIsMod(g + d, n);
    WrapIsMod(l + delta, size);
    WrapIsMod(g - d + n, n);
    WrapIsMod(l - delta + size, size);
    RankPlace(p, Wrap(g + d, n), Wrap(l + delta, size));
    RankPlace(p, Wrap(g - d + n, n), Wrap(l - delta + size, size));
  }

  lemma RoundForIs(p: Plan, g: nat, l: nat, i: nat, r: nat)
    requires p.Valid() && p.Member(g, l) && i == Cells(g, p.size) + l && r < |p.flat|
    ensures RoundIs(p.RoundFor(g, l, r), p.flat, p.size, p.deltas, i, r)
  {
    RoundInRange(r, p.size, |p.deltas|);
    SplitIsDivMod(r, p.size);
    SplitIsDivMod(i, p.size);
    SameRound(p.size, g, l, i);
    PeersOfMember(p, g, l, p.Distance(r), Col(r, p.size));
  }

  /** The whole schedule of a rank, in the formulas of the original. */
  ghost predicate ScheduleIs(sched: seq<Round>, nodes: Layout, start: nat, rank: int, size: nat, ds: seq<int>, i: nat)
  {
    var flat := Flat(nodes);
    && IsGroupSize(size, start, nodes) && |ds| * size == |flat| == |sched| && Walk(ds, |ds|)
    && i < |flat| && flat[i] == rank
    && forall r: nat :: r < |sched| ==> RoundIs(sched[r], flat, size, ds, i, r)
  }

  lemma FollowsIs(p: Plan, g: nat, l: nat, rank: int, sched: seq<Round>, nodes: Layout, start: nat) returns (i: nat)
    requires Follows(p, g, l, rank, sched) && p.flat == Flat(nodes) && IsGroupSize(p.size, start, nodes)
    requires Walk(p.deltas, |p.deltas|)
    ensures ScheduleIs(sched, nodes, start, rank, p.size, p.deltas, i)
  {
    i := Cells(g, p.size) + l;
    RankIs(p, g, l, i);
    CellsMul(|p.deltas|, p.size);
    forall r: nat | r < |sched| ensures RoundIs(sched[r], p.flat, p.size, p.deltas, i, r) { RoundForIs(p, g, l, i, r); }
  }

  /**
   * `ncclP2pSchedule`: it never fails, the schedule is that of the one plan all ranks share, and
   * every rank is the send peer and the receive peer of exactly one round.  The last clause spells
   * the schedule out: group size, order of distances, and both peers of every round.
   */
  method Schedule(nodes: Layout, param: nat, maxLocalRanks: nat, node: nat, localRank: nat, nRanks: nat)
    returns (ok: bool, sched: seq<Round>, ghost size: nat, ghost ds: seq<int>, ghost i: nat)
    requires WellFormed(nodes) && 0 < param && 0 < maxLocalRanks && nRanks == |Flat(nodes)|
    requires node < |nodes| && localRank < |nodes[node]|
    ensures ScheduleIs(sched, nodes, if |nodes| == 1 then maxLocalRanks else param, nodes[node][localRank], size, ds, i)
    ensures ok && |sched| == nRanks && forall peer :: peer in Flat(nodes) ==> OncePeer(sched, peer)
    ensures 0 < GroupSizeOf(nodes, param, maxLocalRanks)
    ensures exists g: nat, l: nat :: Follows(PlanOf(nodes, param, maxLocalRanks), g, l, nodes[node][localRank], sched)
  {
    ghost var p, g, l;
    ok, sched, p, g, l := ScheduleAt(nodes, param, maxLocalRanks, node, localRank, nRanks);
    assert Follows(p, g, l, nodes[node][localRank], sched);
    forall peer | peer in Flat(nodes) ensures OncePeer(sched, peer) {
      FollowsOnce(p, g, l, nodes[node][localRank], sched, peer);
    }
    size, ds := p.size, p.deltas;
    i := FollowsIs(p, g, l, nodes[node][localRank], sched, nodes, if |nodes| == 1 then maxLocalRanks else param);
  }
}
