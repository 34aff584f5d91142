/**
 * Merging the proxy ops of all channels into one queue (the second half of `finishPlan` in
 * nccl/src/enqueue.cc): a k-way merge by opCount, with the tag bit rotated to the top so that
 * collectives (even opCounts) come before point-to-point ops (odd ones).
 */
module ProxyMerge {

  const MAX_ID: nat := 0xFFFF_FFFF_FFFF_FFFF // uint64_t(-1), the mark of an empty queue
  const TWO_TO_63: nat := 0x8000_0000_0000_0000

  datatype Op = Op(opCount: nat, payload: int)

  /** `id>>1 | id<<63` on 64 bits. */
  function Key(id: nat): nat { id / 2 + if id % 2 == 1 then TWO_TO_63 else 0 }

  /** Order by key: all collectives first, and by opCount within either sort. */
  lemma KeyOrder(a: nat, b: nat)
    requires a <= MAX_ID && b <= MAX_ID
    ensures Key(a) <= Key(b) <==> a % 2 < b % 2 || (a % 2 == b % 2 && a <= b)
    ensures Key(a) <= MAX_ID && (Key(a) == MAX_ID <==> a == MAX_ID)
  {
  }

  /** Queues as the planner builds them: ordered by key, and no op carries the mark of an empty queue. */
  ghost predicate Ordered(q: seq<Op>)
  {
    && (forall i :: 0 <= i < |q| ==> q[i].opCount < MAX_ID)
    && (forall i, j :: 0 <= i < j < |q| ==> Key(q[i].opCount) <= Key(q[j].opCount))
  }

  /** The ops of channel `c` among the merged ones, when `src` tells where each came from. */
  function From(out: seq<Op>, src: seq<nat>, c: nat): seq<Op>
    requires |out| == |src|
  {
    if out == [] then []
    else From(out[..|out| - 1], src[..|src| - 1], c) + if src[|src| - 1] == c then [out[|out| - 1]] else []
  }

  lemma FromPush(out: seq<Op>, src: seq<nat>, c: nat, op: Op, d: nat)
    requires |out| == |src|
    ensures From(out + [op], src + [d], c) == From(out, src, c) + if d == c then [op] else []
  {
    assert (out + [op])[..|out|] == out && (src + [d])[..|src|] == src;
  }

  function HeadId(q: seq<Op>, i: nat): nat { if i < |q| then q[i].opCount else MAX_ID }

  /** Number of ops not yet merged. */
  function Left(queues: seq<seq<Op>>, pos: seq<nat>): int
    requires |pos| == |queues|
  {
    if queues == [] then 0
    else Left(queues[..|queues| - 1], pos[..|pos| - 1]) + |queues[|queues| - 1]| - pos[|pos| - 1]
  }

  lemma {:induction false} LeftStep(queues: seq<seq<Op>>, pos: seq<nat>, c: nat)
    requires |pos| == |queues| && c < |queues|
    ensures Left(queues, pos[c := pos[c] + 1]) == Left(queues, pos) - 1
  {
    var n := |queues| - 1;
    if c < n {
      LeftStep(queues[..n], pos[..n], c);
      assert pos[c := pos[c] + 1][..n] == pos[..n][c := pos[..n][c] + 1];
    } else {
      assert pos[c := pos[c] + 1][..n] == pos[..n];
    }
  }

  lemma {:induction false} LeftNat(queues: seq<seq<Op>>, pos: seq<nat>)
    requires |pos| == |queues| && forall c :: 0 <= c < |queues| ==> pos[c] <= |queues[c]|
    ensures 0 <= Left(queues, pos)
  {
    if queues != [] { LeftNat(queues[..|queues| - 1], pos[..|pos| - 1]); }
  }

  lemma {:induction false} LeftNone(queues: seq<seq<Op>>, pos: seq<nat>)
    requires |pos| == |queues| && forall c :: 0 <= c < |queues| ==> pos[c] == |queues[c]|
    ensures Left(queues, pos) == 0
  {
    if queues != [] { LeftNone(queues[..|queues| - 1], pos[..|pos| - 1]); }
  }

  /** Number of channels below `n` that still have ops. */
  function Heads(queues: seq<seq<Op>>, pos: seq<nat>, n: nat): nat
    requires |pos| == |queues| && n <= |queues|
  {
    if n == 0 then 0 else Heads(queues, pos, n - 1) + if pos[n - 1] < |queues[n - 1]| then 1 else 0
  }

  lemma {:induction false} HeadsStep(queues: seq<seq<Op>>, pos: seq<nat>, c: nat, n: nat)
    requires |pos| == |queues| && c < |queues| && n <= |queues| && pos[c] < |queues[c]|
    ensures Heads(queues, pos[c := pos[c] + 1], n) ==
      Heads(queues, pos, n) - if c < n && pos[c] + 1 == |queues[c]| then 1 else 0
  {
    if 0 < n { HeadsStep(queues, pos, c, n - 1); }
  }

  lemma {:induction false} SomeHead(queues: seq<seq<Op>>, pos: seq<nat>, n: nat) returns (c: nat)
    requires |pos| == |queues| && n <= |queues| && Heads(queues, pos, n) != 0
    ensures c < n && pos[c] < |queues[c]|
  {
    if pos[n - 1] < |queues[n - 1]| { c := n - 1; } else { c := SomeHead(queues, pos, n - 1); }
  }

  lemma {:induction false} NoHead(queues: seq<seq<Op>>, pos: seq<nat>, n: nat, c: nat)
    requires |pos| == |queues| && c < n <= |queues| && Heads(queues, pos, n) == 0
    ensures |queues[c]| <= pos[c]
  {
    if c < n - 1 { NoHead(queues, pos, n - 1, c); }
  }

  ghost predicate Bound(queues: seq<seq<Op>>, ubound: nat)
  {
    ubound <= |queues| && forall c :: ubound <= c < |queues| ==> queues[c] == []
  }

  /** What is merged of every channel. */
  ghost predicate Consumed(queues: seq<seq<Op>>, pos: seq<nat>, out: seq<Op>, src: seq<nat>)
  {
    && |pos| == |queues| && |out| == |src| && (forall i :: 0 <= i < |src| ==> src[i] < |queues|)
    && forall c :: 0 <= c < |queues| ==> pos[c] <= |queues[c]| && From(out, src, c) == queues[c][..pos[c]]
  }

  /** `a` may stand before `b` in the merged queue; ties are broken by channel. */
  predicate Before(a: Op, c: nat, b: Op, d: nat)
  {
    Key(a.opCount) < Key(b.opCount) || (Key(a.opCount) == Key(b.opCount) && c <= d)
  }

  ghost predicate Sorted(out: seq<Op>, src: seq<nat>)
    requires |out| == |src|
  {
    forall i, j :: 0 <= i < j < |out| ==> Before(out[i], src[i], out[j], src[j])
  }

  /** Nothing left belongs before anything merged. */
  ghost predicate Frontier(queues: seq<seq<Op>>, pos: seq<nat>, out: seq<Op>, src: seq<nat>)
    requires |pos| == |queues| && |out| == |src|
  {
    forall i, c, k :: 0 <= i < |out| && 0 <= c < |queues| && pos[c] <= k < |queues[c]| ==>
      Before(out[i], src[i], queues[c][k], c)
  }

  /** The scan for the least head: strict comparison keeps the first of equal keys. */
  method LeastHead(headIds: seq<nat>, ubound: nat) returns (c: int)
    requires ubound <= |headIds| && forall i :: 0 <= i < |headIds| ==> headIds[i] <= MAX_ID
    ensures c == -1 || 0 <= c < ubound
    ensures c == -1 <==> forall i :: 0 <= i < ubound ==> headIds[i] == MAX_ID
    ensures c != -1 ==> headIds[c] != MAX_ID && forall i :: 0 <= i < ubound ==>
      Key(headIds[c]) < Key(headIds[i]) || (Key(headIds[c]) == Key(headIds[i]) && c <= i)
  {
    c := -1;
    var minId := MAX_ID;
    for c1 := 0 to ubound
      invariant -1 <= c < c1 && minId == if c == -1 then MAX_ID else Key(headIds[c])
      invariant c == -1 ==> forall i :: 0 <= i < c1 ==> headIds[i] == MAX_ID
      invariant c != -1 ==> minId < MAX_ID && forall i :: 0 <= i < c1 ==>
        minId < Key(headIds[i]) || (minId == Key(headIds[i]) && c <= i)
    {
      KeyOrder(headIds[c1], MAX_ID);
      var id := Key(headIds[c1]);
      if id < minId { c, minId := c1, id; }
    }
    if c != -1 { KeyOrder(headIds[c], MAX_ID); }
  }

  lemma StepConsumed(queues: seq<seq<Op>>, pos: seq<nat>, out: seq<Op>, src: seq<nat>, c: nat)
    requires Consumed(queues, pos, out, src) && c < |queues| && pos[c] < |queues[c]|
    ensures Consumed(queues, pos[c := pos[c] + 1], out + [queues[c][pos[c]]], src + [c])
  {
    var op := queues[c][pos[c]];
    forall d | 0 <= d < |queues| ensures
      From(out + [op], src + [c], d) == queues[d][..pos[c := pos[c] + 1][d]] {
      FromPush(out, src, d, op, c);
    }
  }

  /** The least head belongs before everything that is left. */
  lemma LeastBefore(queues: seq<seq<Op>>, pos: seq<nat>, c: nat, d: nat, k: nat)
    requires |pos| == |queues| && c < |queues| && d < |queues| && pos[c] < |queues[c]| && pos[d] <= k < |queues[d]|
    requires Ordered(queues[d])
    requires Before(queues[c][pos[c]], c, queues[d][pos[d]], d)
    ensures Before(queues[c][pos[c]], c, queues[d][k], d)
  {
    assert pos[d] < k ==> Key(queues[d][pos[d]].opCount) <= Key(queues[d][k].opCount);
  }

  lemma StepFrontier(queues: seq<seq<Op>>, pos: seq<nat>, out: seq<Op>, src: seq<nat>, c: nat)
    requires |pos| == |queues| && |out| == |src| && c < |queues| && pos[c] < |queues[c]|
    requires Frontier(queues, pos, out, src) && forall d :: 0 <= d < |queues| ==> Ordered(queues[d])
    requires forall d :: 0 <= d < |queues| && pos[d] < |queues[d]| ==>
      Before(queues[c][pos[c]], c, queues[d][pos[d]], d)
    ensures Frontier(queues, pos[c := pos[c] + 1], out + [queues[c][pos[c]]], src + [c])
  {
    var op, pos' := queues[c][pos[c]], pos[c := pos[c] + 1];
    forall i, d, k | 0 <= i < |out + [op]| && 0 <= d < |queues| && pos'[d] <= k < |queues[d]|
      ensures Before((out + [op])[i], (src + [c])[i], queues[d][k], d) {
      if i < |out| {
        assert Before(out[i], src[i], queues[d][k], d);
      } else {
        LeastBefore(queues, pos, c, d, k);
      }
    }
  }

  lemma StepSorted(queues: seq<seq<Op>>, pos: seq<nat>, out: seq<Op>, src: seq<nat>, c: nat)
    requires |pos| == |queues| && |out| == |src| && c < |queues| && pos[c] < |queues[c]|
    requires Frontier(queues, pos, out, src) && Sorted(out, src)
    ensures Sorted(out + [queues[c][pos[c]]], src + [c])
  {
  }

  ghost predicate Tracks(queues: seq<seq<Op>>, pos: seq<nat>, headIds: seq<nat>, nHeads: int)
  {
    && |pos| == |headIds| == |queues| && nHeads == Heads(queues, pos, |queues|)
    && forall c :: 0 <= c < |queues| ==> headIds[c] == HeadId(queues[c], pos[c])
  }

  /** The scan finds a channel that still has ops, and its head goes before all other heads. */
  lemma FoundHead(queues: seq<seq<Op>>, pos: seq<nat>, headIds: seq<nat>, nHeads: int, ubound: nat, c: int)
    requires Tracks(queues, pos, headIds, nHeads) && nHeads != 0 && Bound(queues, ubound)
    requires forall d :: 0 <= d < |queues| ==> Ordered(queues[d])
    requires c == -1 <==> forall i :: 0 <= i < ubound ==> headIds[i] == MAX_ID
    requires c != -1 ==> 0 <= c < ubound && headIds[c] != MAX_ID && forall i :: 0 <= i < ubound ==>
      Key(headIds[c]) < Key(headIds[i]) || (Key(headIds[c]) == Key(headIds[i]) && c <= i)
    ensures 0 <= c < ubound && pos[c] < |queues[c]|
    ensures forall d :: 0 <= d < |queues| && pos[d] < |queues[d]| ==> Before(queues[c][pos[c]], c, queues[d][pos[d]], d)
  {
    var h := SomeHead(queues, pos, |queues|);
    assert queues[h] != [] && h < ubound && headIds[h] == queues[h][pos[h]].opCount < MAX_ID;
    forall d | 0 <= d < |queues| && pos[d] < |queues[d]| ensures Before(queues[c][pos[c]], c, queues[d][pos[d]], d) {
      assert d < ubound && headIds[d] == queues[d][pos[d]].opCount;
    }
  }

  function Zeros(n: nat): (z: seq<nat>)
    ensures |z| == n && forall i :: 0 <= i < n ==> z[i] == 0
  {
    seq(n, _ => 0)
  }

  /** Everything that holds between two rounds of the merge. */
  ghost predicate Merging(
      queues: seq<seq<Op>>, pos: seq<nat>, out: seq<Op>, src: seq<nat>, headIds: seq<nat>, nHeads: int)
  {
    && Tracks(queues, pos, headIds, nHeads) && Consumed(queues, pos, out, src)
    && Sorted(out, src) && Frontier(queues, pos, out, src)
  }

  lemma MergeStep(
      queues: seq<seq<Op>>, pos: seq<nat>, out: seq<Op>, src: seq<nat>, headIds: seq<nat>, nHeads: int, c: nat)
    requires Merging(queues, pos, out, src, headIds, nHeads) && forall d :: 0 <= d < |queues| ==> Ordered(queues[d])
    requires c < |queues| && pos[c] < |queues[c]|
    requires forall d :: 0 <= d < |queues| && pos[d] < |queues[d]| ==>
      Before(queues[c][pos[c]], c, queues[d][pos[d]], d)
    ensures Merging(queues, pos[c := pos[c] + 1], out + [queues[c][pos[c]]], src + [c],
                    headIds[c := HeadId(queues[c], pos[c] + 1)], nHeads - if pos[c] + 1 < |queues[c]| then 0 else 1)
    ensures 0 <= Left(queues, pos) && Left(queues, pos[c := pos[c] + 1]) == Left(queues, pos) - 1
  {
    StepConsumed(queues, pos, out, src, c);
    StepFrontier(queues, pos, out, src, c);
    StepSorted(queues, pos, out, src, c);
    HeadsStep(queues, pos, c, |queues|);
    LeftStep(queues, pos, c);
    LeftNat(queues, pos);
  }

  lemma HeadIdsBounded(queues: seq<seq<Op>>, pos: seq<nat>, headIds: seq<nat>, nHeads: int)
    requires Tracks(queues, pos, headIds, nHeads) && forall c :: 0 <= c < |queues| ==> Ordered(queues[c])
    ensures forall i :: 0 <= i < |headIds| ==> headIds[i] <= MAX_ID
  {
    forall i | 0 <= i < |headIds| ensures headIds[i] <= MAX_ID { assert Ordered(queues[i]); }
  }

  /** The first scan over the heads of all channels. */
  method ScanHeads(queues: seq<seq<Op>>) returns (headIds: seq<nat>, nHeads: nat, ubound: nat)
    ensures Tracks(queues, Zeros(|queues|), headIds, nHeads) && Bound(queues, ubound)
  {
    headIds, nHeads, ubound := [], 0, 0;
    ghost var zero := Zeros(|queues|);
    for c := 0 to |queues|
      invariant |headIds| == c && nHeads == Heads(queues, zero, c) && ubound <= c
      invariant forall d :: 0 <= d < c ==> headIds[d] == HeadId(queues[d], 0)
      invariant forall d :: ubound <= d < c ==> queues[d] == []
    {
      headIds := headIds + [HeadId(queues[c], 0)];
      if queues[c] != [] { nHeads, ubound := nHeads + 1, c + 1; }
    }
  }

  /**
   * The merge: every channel's ops appear in their own order and nothing else does, and the result
   * is sorted by key with ties in channel order.
   */
  method Merge(queues: seq<seq<Op>>) returns (out: seq<Op>, ghost src: seq<nat>)
    requires forall c :: 0 <= c < |queues| ==> Ordered(queues[c])
    ensures |out| == |src| && forall i :: 0 <= i < |src| ==> src[i] < |queues|
    ensures forall c :: 0 <= c < |queues| ==> From(out, src, c) == queues[c]
    ensures Sorted(out, src)
    ensures |out| == Left(queues, Zeros(|queues|))
    ensures forall i, j :: 0 <= i < j < |out| ==> Key(out[i].opCount) <= Key(out[j].opCount)
  {
    var headIds: seq<nat>, nHeads: int, ubound: nat := ScanHeads(queues);
    var pos: seq<nat> := Zeros(|queues|);
    out, src := [], [];
    while nHeads != 0
      invariant Merging(queues, pos, out, src, headIds, nHeads) && Bound(queues, ubound)
      invariant |out| + Left(queues, pos) == Left(queues, Zeros(|queues|))
      decreases Left(queues, pos)
    {
      HeadIdsBounded(queues, pos, headIds, nHeads);
      var least := LeastHead(headIds, ubound);
      FoundHead(queues, pos, headIds, nHeads, ubound, least);
      var c: nat := least;
      MergeStep(queues, pos, out, src, headIds, nHeads, c);
      out, src := out + [queues[c][pos[c]]], src + [c];
      pos := pos[c := pos[c] + 1];
      headIds := headIds[c := HeadId(queues[c], pos[c])];
      nHeads := nHeads - if pos[c] < |queues[c]| then 0 else 1;
    }
    forall c | 0 <= c < |queues| ensures From(out, src, c) == queues[c] && pos[c] == |queues[c]| {
      NoHead(queues, pos, |queues|, c);
      assert queues[c][..pos[c]] == queues[c];
    }
    LeftNone(queues, pos);
    forall i, j | 0 <= i < j < |out| ensures Key(out[i].opCount) <= Key(out[j].opCount) {
      assert Before(out[i], src[i], out[j], src[j]);
    }
  }

  /** In the merged queue no p2p op stands before a collective, and each sort is in opCount order. */
  lemma MergedOrder(out: seq<Op>, src: seq<nat>, i: nat, j: nat)
    requires |out| == |src| && Sorted(out, src) && i < j < |out|
    requires out[i].opCount <= MAX_ID && out[j].opCount <= MAX_ID
    ensures out[i].opCount % 2 < out[j].opCount % 2 ||
      (out[i].opCount % 2 == out[j].opCount % 2 && out[i].opCount <= out[j].opCount)
  {
    KeyOrder(out[i].opCount, out[j].opCount);
    assert Before(out[i], src[i], out[j], src[j]);
  }
}