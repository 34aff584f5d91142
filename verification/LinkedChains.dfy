/**
 * Index-linked chains: lists threaded through an array of successors, and the bookkeeping that
 * says which of several disjoint chains every element is in.
 */
module LinkedChains {
  import opened Arith

  // ---------------------------------------------------------------- chains in the next array

  predicate Fit(l: seq<nat>, n: nat)
  {
    forall i :: 0 <= i < |l| ==> l[i] < n
  }

  predicate Linked(next: seq<int>, l: seq<nat>)
  {
    Fit(l, |next|) && forall i :: 0 <= i < |l| - 1 ==> LinkAt(next, l, i)
  }

  predicate LinkAt(next: seq<int>, l: seq<nat>, i: int)
    requires 0 <= i < |l| - 1
  {
    l[i] < |next| && next[l[i]] == l[i + 1]
  }

  function Head(l: seq<nat>): int { if l == [] then -1 else l[0] }

  function Last(l: seq<nat>): nat
    requires l != []
  {
    l[|l| - 1]
  }

  /** `l` is the path from `a` to the first visit of `b`. */
  predicate Path(next: seq<int>, l: seq<nat>, a: int, b: int)
  {
    l != [] && l[0] == a && Last(l) == b && Linked(next, l) && forall i :: 0 <= i < |l| - 1 ==> l[i] != b
  }

  lemma {:induction false} PathPrefix(next: seq<int>, l: seq<nat>, m: seq<nat>, a: int, b: int, i: nat)
    requires Path(next, l, a, b) && Path(next, m, a, b) && i < |l| && i < |m|
    ensures l[i] == m[i]
  {
    if 0 < i {
      PathPrefix(next, l, m, a, b, i - 1);
      assert LinkAt(next, l, i - 1) && LinkAt(next, m, i - 1);
    }
  }

  lemma PathUnique(next: seq<int>, l: seq<nat>, m: seq<nat>, a: int, b: int)
    requires Path(next, l, a, b) && Path(next, m, a, b)
    ensures l == m
  {
    forall i: nat | i < |l| && i < |m| ensures l[i] == m[i] { PathPrefix(next, l, m, a, b, i); }
    var k := (if |l| < |m| then |l| else |m|) - 1;
    assert l[k] == m[k];
  }

  lemma LinkedJoin(next: seq<int>, a: seq<nat>, b: seq<nat>)
    requires Linked(next, a) && Linked(next, b) && (a != [] && b != [] ==> next[Last(a)] == b[0])
    ensures Linked(next, a + b)
  {
    var l := a + b;
    forall i | 0 <= i < |l| - 1 ensures LinkAt(next, l, i) {
      if i < |a| - 1 { assert LinkAt(next, a, i); } else if |a| <= i { assert LinkAt(next, b, i - |a|); }
    }
  }

  lemma LinkedSplit(next: seq<int>, l: seq<nat>, k: nat)
    requires Linked(next, l) && k <= |l|
    ensures Linked(next, l[..k]) && Linked(next, l[k..])
    ensures 0 < k < |l| ==> next[Last(l[..k])] == l[k..][0]
  {
    var b := l[k..];
    var a := l[..k];
    forall i | 0 <= i < |a| - 1 ensures LinkAt(next, a, i) { assert LinkAt(next, l, i); }
    forall i | 0 <= i < |b| - 1 ensures LinkAt(next, b, i) { assert LinkAt(next, l, k + i); }
    if 0 < k < |l| { assert LinkAt(next, l, k - 1); }
  }

  /** Writing one `next` field leaves a chain alone unless it is an inner link of that chain. */
  lemma LinkedFrame(next: seq<int>, l: seq<nat>, j: nat, v: int)
    requires Linked(next, l) && j < |next| && forall i :: 0 <= i < |l| - 1 ==> l[i] != j
    ensures Linked(next[j := v], l)
  {
    var next' := next[j := v];
    forall i | 0 <= i < |l| - 1 ensures LinkAt(next', l, i) { assert l[i] != j && LinkAt(next, l, i); }
  }

  // ---------------------------------------------------------------- who owns which op

  /** The chains as lists, and the chain each op is in. */
  datatype View<!P> = View(lists: P -> seq<nat>, owner: seq<P>)

  predicate OnceIn<P(!new)>(v: View<P>, p: P)
  {
    Distinct(v.lists(p))
  }

  ghost predicate InPlace<P(!new)>(v: View<P>, p: P, i: int)
  {
    0 <= i < |v.lists(p)| ==> v.lists(p)[i] < |v.owner| && v.owner[v.lists(p)[i]] == p
  }

  predicate Located<P(!new)>(v: View<P>, j: int)
  {
    0 <= j < |v.owner| ==> j in v.lists(v.owner[j])
  }

  /** Every op is in exactly one chain, and there exactly once. */
  ghost predicate Owns<P(!new)>(v: View<P>)
  {
    (forall p :: OnceIn(v, p)) && (forall p, i :: InPlace(v, p, i)) && (forall j :: Located(v, j))
  }

  /** The first `k` ops of `p` move, as a block, to the front or the back of `q`. */
  datatype Motion<P> = Stay | Move(p: P, k: nat, q: P, front: bool)

  predicate CanMove<P(==)>(v: View<P>, m: Motion<P>)
  {
    m.Move? ==> m.p != m.q && m.k <= |v.lists(m.p)|
  }

  function Moved<P(==,!new)>(v: View<P>, m: Motion<P>): View<P>
    requires CanMove(v, m)
  {
    if m.Stay? then v else
    var block := v.lists(m.p)[..m.k];
    var dest := if m.front then block + v.lists(m.q) else v.lists(m.q) + block;
    View(Upd(Upd(v.lists, m.p, v.lists(m.p)[m.k..]), m.q, dest),
         seq(|v.owner|, j requires 0 <= j < |v.owner| => if j in block then m.q else v.owner[j]))
  }

  lemma OwnedBy<P(!new)>(v: View<P>, p: P, j: nat)
    requires Owns(v)
    ensures Distinct(v.lists(p))
    ensures j in v.lists(p) <==> j < |v.owner| && v.owner[j] == p
  {
    assert OnceIn(v, p) && Located(v, j);
    if j in v.lists(p) {
      var i :| 0 <= i < |v.lists(p)| && v.lists(p)[i] == j;
      assert InPlace(v, p, i);
    }
  }

  lemma MovedDest<P(!new)>(v: View<P>, m: Motion<P>, block: seq<nat>, dest: seq<nat>)
    requires Owns(v) && CanMove(v, m) && m.Move? && block == v.lists(m.p)[..m.k]
    requires dest == (if m.front then block + v.lists(m.q) else v.lists(m.q) + block)
    ensures Distinct(dest) && forall j :: j in dest <==> j in block || j in v.lists(m.q)
  {
    var l, d := v.lists(m.p), v.lists(m.q);
    forall x | x in d ensures x !in block {
      OwnedBy(v, m.p, x);
      OwnedBy(v, m.q, x);
      assert x in block ==> x in l;
    }
    assert OnceIn(v, m.p) && OnceIn(v, m.q);
    if m.front { DistinctConcat(block, d); } else { DistinctConcat(d, block); }
  }

  lemma MovedRest<P(!new)>(v: View<P>, m: Motion<P>, block: seq<nat>, j: nat)
    requires Owns(v) && CanMove(v, m) && m.Move? && block == v.lists(m.p)[..m.k]
    ensures j in v.lists(m.p)[m.k..] <==> j in v.lists(m.p) && j !in block
  {
    var l := v.lists(m.p);
    assert l == block + l[m.k..] && OnceIn(v, m.p);
    DistinctApart(block, l[m.k..], j);
  }

  /** Membership after a move, chain by chain. */
  lemma MovedMember<P(!new)>(v: View<P>, m: Motion<P>, x: P, j: nat)
    requires Owns(v) && CanMove(v, m)
    ensures j in Moved(v, m).lists(x) <==> j < |v.owner| && Moved(v, m).owner[j] == x
  {
    OwnedBy(v, x, j);
    if m.Move? {
      var block := v.lists(m.p)[..m.k];
      OwnedBy(v, m.p, j);
      OwnedBy(v, m.q, j);
      MovedRest(v, m, block, j);
      MovedDest(v, m, block, if m.front then block + v.lists(m.q) else v.lists(m.q) + block);
      assert j in block ==> j in v.lists(m.p);
    }
  }

  lemma MoveOwns<P(!new)>(v: View<P>, m: Motion<P>)
    requires Owns(v) && CanMove(v, m)
    ensures Owns(Moved(v, m))
  {
    if m.Stay? { return; }
    var w := Moved(v, m);
    MovedDest(v, m, v.lists(m.p)[..m.k], w.lists(m.q));
    forall p: P ensures OnceIn(w, p) { assert OnceIn(v, p) && OnceIn(v, m.p); }
    forall p: P, i ensures InPlace(w, p, i) {
      if 0 <= i < |w.lists(p)| { MovedMember(v, m, p, w.lists(p)[i]); }
    }
    forall j ensures Located(w, j) {
      if 0 <= j < |w.owner| { MovedMember(v, m, w.owner[j], j); }
    }
  }

  /** Two ops in different chains are different ops. */
  lemma Apart<P(!new)>(v: View<P>, p: P, j: nat, x: P)
    requires Owns(v) && p != x && j in v.lists(p)
    ensures forall i :: 0 <= i < |v.lists(x)| ==> v.lists(x)[i] != j
  {
    OwnedBy(v, p, j);
    OwnedBy(v, x, j);
  }

  predicate Disjoint(a: seq<nat>, b: seq<nat>)
  {
    forall i, j :: 0 <= i < |a| && 0 <= j < |b| ==> a[i] != b[j]
  }

  lemma ListsApart<P(!new)>(v: View<P>, p: P, q: P)
    requires Owns(v) && p != q
    ensures Disjoint(v.lists(p), v.lists(q))
  {
    forall i, j | 0 <= i < |v.lists(p)| && 0 <= j < |v.lists(q)| ensures v.lists(p)[i] != v.lists(q)[j] {
      Apart(v, p, v.lists(p)[i], q);
    }
  }

  function Range(from: nat, k: nat): (l: seq<nat>)
    ensures |l| == k && forall i :: 0 <= i < k ==> l[i] == from + i
  {
    seq(k, i requires 0 <= i < k => from + i)
  }

  /** `k` new elements, all put into the empty chain `p`. */
  function Grown<P(==,!new)>(v: View<P>, p: P, k: nat): View<P>
  {
    View(Upd(v.lists, p, Range(|v.owner|, k)),
         v.owner + seq(k, i requires 0 <= i < k => p))
  }

  lemma GrowOwns<P(!new)>(v: View<P>, p: P, k: nat)
    requires Owns(v) && v.lists(p) == []
    ensures Owns(Grown(v, p, k))
  {
    var w := Grown(v, p, k);
    forall q: P ensures OnceIn(w, q) { assert OnceIn(v, q); }
    forall q: P, i ensures InPlace(w, q, i) { assert InPlace(v, q, i); }
    forall j ensures Located(w, j) {
      assert Located(v, j);
      if |v.owner| <= j < |w.owner| { assert w.lists(p)[j - |v.owner|] == j; }
    }
  }
}
