/**
 * The bootstrap all-gathers (nccl/src/bootstrap.cc): the simple ring `netRingAllGather` and the
 * bidirectional ring `socketRingAllGather`, over FIFO streams between ring neighbours.
 *
 * Both are one scheme: in step `k` a rank passes slice `rank - k` to its next neighbour while
 * it takes slice `rank - k - 1` from its previous one (the right-going ring), and as long as
 * `k < left` it also passes slice `rank + k` back and takes slice `rank + k + 1` (the left-going
 * ring).  The simple ring is (right, left) = (n-1, 0), the bidirectional one (n/2, (n-1)/2).
 */
module RingAllGather {
  import opened Arith

  /** Number of ranks and number of steps in which each ring is used. */
  datatype Shape = Shape(n: nat, right: nat, left: nat) {

    predicate Valid()
    {
      0 < n && left <= right && right + left == n - 1
    }
  }

  function SimpleRing(n: nat): (s: Shape)
    requires 0 < n
    ensures s.Valid() && s.n == n && s.right == n - 1 && s.left == 0
  {
    Shape(n, n - 1, 0)
  }

  /** `nranks/2` steps; when `nranks` is even the last one uses the right-going ring only. */
  function DoubleRing(n: nat): (s: Shape)
    requires 0 < n
    ensures s.Valid() && s.n == n && s.right == n / 2 && s.left == (if n % 2 == 0 then n / 2 - 1 else n / 2)
  {
    Shape(n, n / 2, (n - 1) / 2)
  }

  function Back(r: nat, d: nat, n: nat): (x: nat)
    requires r < n && d < n
    ensures x < n
  {
    Wrap(r - d + n, n)
  }

  function Fwd(r: nat, d: nat, n: nat): (x: nat)
    requires r < n && d < n
    ensures x < n
  {
    Wrap(r + d, n)
  }

  /** The two slice formulas of the sources. */
  lemma SliceFormulas(r: nat, d: nat, n: nat)
    requires r < n && d < n
    ensures Back(r, d, n) == (r - d + n) % n && Fwd(r, d, n) == (r + d) % n
  {
    WrapIsMod(r - d + n, n);
    WrapIsMod(r + d, n);
  }

  /** The left-going ring rests exactly in the final step of an even number of ranks. */
  lemma FinalStepUnidirectional(n: nat, step: nat)
    requires 0 < n && step < n / 2
    ensures step < DoubleRing(n).left <==> !(step == n / 2 - 1 && n % 2 == 0)
  {
  }

  function Next(r: nat, n: nat): (x: nat)
    requires r < n
    ensures x < n
  {
    if r + 1 == n then 0 else r + 1
  }

  function Prev(r: nat, n: nat): (x: nat)
    requires r < n
    ensures x < n && Next(x, n) == r
  {
    if r == 0 then n - 1 else r - 1
  }

  /** How many transfers of each kind a rank has completed. */
  datatype Counts = Counts(sendR: nat, recvR: nat, sendL: nat, recvL: nat)

  /**
   * `data[r]` is the buffer of rank `r`; `toNext[r]` and `toPrev[r]` are the streams it feeds.
   * In `Counts` the suffix R is the right-going ring and L the left-going one.
   */
  datatype State = State(data: seq<seq<int>>, counts: seq<Counts>, toNext: seq<seq<int>>, toPrev: seq<seq<int>>)

  datatype Kind = SendR | RecvR | SendL | RecvL

  predicate Sized(s: State, n: nat)
  {
    |s.data| == |s.counts| == |s.toNext| == |s.toPrev| == n && forall r :: 0 <= r < n ==> |s.data[r]| == n
  }

  /** All transfers of the steps before `k` are complete on a rank. */
  predicate Reached(c: Counts, sh: Shape, k: nat)
  {
    k <= c.sendR && k <= c.recvR && Min(k, sh.left) <= c.sendL && Min(k, sh.left) <= c.recvL
  }

  /** Within a step the transfers are concurrent: any of them that is not done may happen next. */
  predicate Enabled(s: State, sh: Shape, r: nat, kind: Kind)
    requires sh.Valid() && Sized(s, sh.n)
  {
    r < sh.n &&
    var c := s.counts[r];
    match kind
    case SendR => c.sendR < sh.right && Reached(c, sh, c.sendR)
    case RecvR => c.recvR < sh.right && Reached(c, sh, c.recvR) && s.toNext[Prev(r, sh.n)] != []
    case SendL => c.sendL < sh.left && Reached(c, sh, c.sendL)
    case RecvL => c.recvL < sh.left && Reached(c, sh, c.recvL) && s.toPrev[Next(r, sh.n)] != []
  }

  function Apply(s: State, sh: Shape, r: nat, kind: Kind): State
    requires sh.Valid() && Sized(s, sh.n) && Enabled(s, sh, r, kind)
  {
    var n, c := sh.n, s.counts[r];
    match kind
    case SendR =>
      s.(counts := s.counts[r := c.(sendR := c.sendR + 1)],
         toNext := s.toNext[r := s.toNext[r] + [s.data[r][Back(r, c.sendR, n)]]])
    case RecvR =>
      var p := Prev(r, n);
      s.(counts := s.counts[r := c.(recvR := c.recvR + 1)],
         data := s.data[r := s.data[r][Back(r, c.recvR + 1, n) := s.toNext[p][0]]],
         toNext := s.toNext[p := s.toNext[p][1..]])
    case SendL =>
      s.(counts := s.counts[r := c.(sendL := c.sendL + 1)],
         toPrev := s.toPrev[r := s.toPrev[r] + [s.data[r][Fwd(r, c.sendL, n)]]])
    case RecvL =>
      var q := Next(r, n);
      s.(counts := s.counts[r := c.(recvL := c.recvL + 1)],
         data := s.data[r := s.data[r][Fwd(r, c.recvL + 1, n) := s.toPrev[q][0]]],
         toPrev := s.toPrev[q := s.toPrev[q][1..]])
  }

  /** Every rank starts with its own slice; the rest of its buffer is arbitrary. */
  ghost predicate Initial(s: State, sh: Shape, own: seq<int>)
  {
    && Sized(s, sh.n) && |own| == sh.n
    && forall r :: 0 <= r < sh.n ==>
         s.data[r][r] == own[r] && s.counts[r] == Counts(0, 0, 0, 0) && s.toNext[r] == [] == s.toPrev[r]
  }

  /** Rank `r` has finished all its steps. */
  predicate Finished(s: State, sh: Shape, r: nat)
    requires Sized(s, sh.n) && r < sh.n
  {
    s.counts[r] == Counts(sh.right, sh.right, sh.left, sh.left)
  }

  // ---------------------------------------------------------------- invariant

  predicate Bounded(c: Counts, sh: Shape)
  {
    c.sendR <= sh.right && c.recvR <= sh.right && c.sendL <= sh.left && c.recvL <= sh.left
  }

  /** Everything received so far on either ring, and the own slice, is in place. */
  ghost predicate Gathered(row: seq<int>, own: seq<int>, r: nat, recvR: nat, recvL: nat, n: nat)
    requires |row| == |own| == n && r < n && recvR < n && recvL < n
  {
    && (forall d: nat :: d <= recvR ==> row[Back(r, d, n)] == own[Back(r, d, n)])
    && (forall d: nat :: d <= recvL ==> row[Fwd(r, d, n)] == own[Fwd(r, d, n)])
  }

  /** The stream from `r` to its next neighbour holds what was sent and not yet taken, in order. */
  ghost predicate StreamR(q: seq<int>, own: seq<int>, r: nat, taken: nat, sent: nat, n: nat)
    requires |own| == n && r < n && sent <= n
  {
    && taken + |q| == sent
    && forall i: nat :: i < |q| ==> q[i] == own[Back(r, taken + i, n)]
  }

  /** The same for the stream from `r` to its previous neighbour. */
  ghost predicate StreamL(q: seq<int>, own: seq<int>, r: nat, taken: nat, sent: nat, n: nat)
    requires |own| == n && r < n && sent <= n
  {
    && taken + |q| == sent
    && forall i: nat :: i < |q| ==> q[i] == own[Fwd(r, taken + i, n)]
  }

  ghost predicate GoodBuffer(s: State, sh: Shape, own: seq<int>, r: nat)
    requires sh.Valid() && Sized(s, sh.n) && |own| == sh.n && r < sh.n
  {
    var c := s.counts[r];
    Bounded(c, sh) && Gathered(s.data[r], own, r, c.recvR, c.recvL, sh.n)
  }

  ghost predicate GoodRight(s: State, sh: Shape, own: seq<int>, r: nat)
    requires sh.Valid() && Sized(s, sh.n) && |own| == sh.n && r < sh.n
  {
    Bounded(s.counts[r], sh) && StreamR(s.toNext[r], own, r, s.counts[Next(r, sh.n)].recvR, s.counts[r].sendR, sh.n)
  }

  ghost predicate GoodLeft(s: State, sh: Shape, own: seq<int>, r: nat)
    requires sh.Valid() && Sized(s, sh.n) && |own| == sh.n && r < sh.n
  {
    Bounded(s.counts[r], sh) && StreamL(s.toPrev[r], own, r, s.counts[Prev(r, sh.n)].recvL, s.counts[r].sendL, sh.n)
  }

  ghost predicate Good(s: State, sh: Shape, own: seq<int>, r: nat)
    requires sh.Valid() && Sized(s, sh.n) && |own| == sh.n && r < sh.n
  {
    GoodBuffer(s, sh, own, r) && GoodRight(s, sh, own, r) && GoodLeft(s, sh, own, r)
  }

  ghost predicate Inv(s: State, sh: Shape, own: seq<int>)
  {
    sh.Valid() && Sized(s, sh.n) && |own| == sh.n && forall r: nat :: r < sh.n ==> Good(s, sh, own, r)
  }

  lemma PrevNext(r: nat, q: nat, n: nat)
    requires r < n && q < n
    ensures Next(q, n) == r <==> q == Prev(r, n)
    ensures Prev(q, n) == r <==> q == Next(r, n)
  {
  }

  /** Distances seen from a neighbour. */
  lemma NeighbourSlice(r: nat, d: nat, n: nat)
    requires r < n && d + 1 < n
    ensures Back(Prev(r, n), d, n) == Back(r, d + 1, n) && Fwd(Next(r, n), d, n) == Fwd(r, d + 1, n)
  {
  }

  lemma TakeR(row: seq<int>, own: seq<int>, r: nat, recvR: nat, recvL: nat, n: nat)
    requires |row| == |own| == n && r < n && recvR + 1 < n && recvL < n && Gathered(row, own, r, recvR, recvL, n)
    ensures var j := Back(r, recvR + 1, n); Gathered(row[j := own[j]], own, r, recvR + 1, recvL, n)
  {
  }

  lemma TakeL(row: seq<int>, own: seq<int>, r: nat, recvR: nat, recvL: nat, n: nat)
    requires |row| == |own| == n && r < n && recvR < n && recvL + 1 < n && Gathered(row, own, r, recvR, recvL, n)
    ensures var j := Fwd(r, recvL + 1, n); Gathered(row[j := own[j]], own, r, recvR, recvL + 1, n)
  {
  }

  lemma PopR(q: seq<int>, own: seq<int>, r: nat, taken: nat, sent: nat, n: nat)
    requires |own| == n && r < n && sent <= n && StreamR(q, own, r, taken, sent, n) && q != []
    ensures q[0] == own[Back(r, taken, n)] && StreamR(q[1..], own, r, taken + 1, sent, n)
  {
    forall i: nat | i < |q[1..]| ensures q[1..][i] == own[Back(r, taken + 1 + i, n)] {
      assert q[i + 1] == own[Back(r, taken + (i + 1), n)];
    }
    assert q[0] == own[Back(r, taken + 0, n)];
  }

  lemma PopL(q: seq<int>, own: seq<int>, r: nat, taken: nat, sent: nat, n: nat)
    requires |own| == n && r < n && sent <= n && StreamL(q, own, r, taken, sent, n) && q != []
    ensures q[0] == own[Fwd(r, taken, n)] && StreamL(q[1..], own, r, taken + 1, sent, n)
  {
    forall i: nat | i < |q[1..]| ensures q[1..][i] == own[Fwd(r, taken + 1 + i, n)] {
      assert q[i + 1] == own[Fwd(r, taken + (i + 1), n)];
    }
    assert q[0] == own[Fwd(r, taken + 0, n)];
  }

  /** Every slice that is sent is already held. */
  lemma SendsHeldSlice(s: State, sh: Shape, own: seq<int>, r: nat, kind: Kind)
    requires Inv(s, sh, own) && Enabled(s, sh, r, kind)
    ensures kind.SendR? ==> var j := Back(r, s.counts[r].sendR, sh.n); s.data[r][j] == own[j]
    ensures kind.SendL? ==> var j := Fwd(r, s.counts[r].sendL, sh.n); s.data[r][j] == own[j]
  {
    assert Good(s, sh, own, r);
  }

  lemma SendRKeeps(s: State, sh: Shape, own: seq<int>, r: nat, q: nat)
    requires Inv(s, sh, own) && Enabled(s, sh, r, SendR) && q < sh.n
    ensures Good(Apply(s, sh, r, SendR), sh, own, q)
  {
    assert Good(s, sh, own, q);
    SendsHeldSlice(s, sh, own, r, SendR);
  }

  lemma SendLKeeps(s: State, sh: Shape, own: seq<int>, r: nat, q: nat)
    requires Inv(s, sh, own) && Enabled(s, sh, r, SendL) && q < sh.n
    ensures Good(Apply(s, sh, r, SendL), sh, own, q)
  {
    assert Good(s, sh, own, q);
    SendsHeldSlice(s, sh, own, r, SendL);
  }

  /** A receive finds the slice it is waiting for at the head of the stream. */
  lemma HeadR(s: State, sh: Shape, own: seq<int>, r: nat)
    requires Inv(s, sh, own) && Enabled(s, sh, r, RecvR)
    ensures s.toNext[Prev(r, sh.n)][0] == own[Back(r, s.counts[r].recvR + 1, sh.n)]
    ensures GoodRight(Apply(s, sh, r, RecvR), sh, own, Prev(r, sh.n))
  {
    var p := Prev(r, sh.n);
    assert Good(s, sh, own, p);
    PopR(s.toNext[p], own, p, s.counts[r].recvR, s.counts[p].sendR, sh.n);
    NeighbourSlice(r, s.counts[r].recvR, sh.n);
  }

  lemma HeadL(s: State, sh: Shape, own: seq<int>, r: nat)
    requires Inv(s, sh, own) && Enabled(s, sh, r, RecvL)
    ensures s.toPrev[Next(r, sh.n)][0] == own[Fwd(r, s.counts[r].recvL + 1, sh.n)]
    ensures GoodLeft(Apply(s, sh, r, RecvL), sh, own, Next(r, sh.n))
  {
    var p := Next(r, sh.n);
    PrevNext(r, p, sh.n);
    assert Good(s, sh, own, p);
    PopL(s.toPrev[p], own, p, s.counts[r].recvL, s.counts[p].sendL, sh.n);
    NeighbourSlice(r, s.counts[r].recvL, sh.n);
  }

  lemma RecvRBuffer(s: State, sh: Shape, own: seq<int>, r: nat, q: nat)
    requires Inv(s, sh, own) && Enabled(s, sh, r, RecvR) && q < sh.n
    ensures GoodBuffer(Apply(s, sh, r, RecvR), sh, own, q)
  {
    assert Good(s, sh, own, q);
    if q == r {
      HeadR(s, sh, own, r);
      TakeR(s.data[r], own, r, s.counts[r].recvR, s.counts[r].recvL, sh.n);
    }
  }

  lemma RecvLBuffer(s: State, sh: Shape, own: seq<int>, r: nat, q: nat)
    requires Inv(s, sh, own) && Enabled(s, sh, r, RecvL) && q < sh.n
    ensures GoodBuffer(Apply(s, sh, r, RecvL), sh, own, q)
  {
    assert Good(s, sh, own, q);
    if q == r {
      HeadL(s, sh, own, r);
      TakeL(s.data[r], own, r, s.counts[r].recvR, s.counts[r].recvL, sh.n);
    }
  }

  lemma RecvRStreams(s: State, sh: Shape, own: seq<int>, r: nat, q: nat)
    requires Inv(s, sh, own) && Enabled(s, sh, r, RecvR) && q < sh.n
    ensures var t := Apply(s, sh, r, RecvR);
      Bounded(t.counts[q], sh) && GoodRight(t, sh, own, q) && GoodLeft(t, sh, own, q)
  {
    assert Good(s, sh, own, q);
    PrevNext(r, q, sh.n);
    if q == Prev(r, sh.n) { HeadR(s, sh, own, r); }
  }

  lemma RecvLStreams(s: State, sh: Shape, own: seq<int>, r: nat, q: nat)
    requires Inv(s, sh, own) && Enabled(s, sh, r, RecvL) && q < sh.n
    ensures var t := Apply(s, sh, r, RecvL);
      Bounded(t.counts[q], sh) && GoodRight(t, sh, own, q) && GoodLeft(t, sh, own, q)
  {
    assert Good(s, sh, own, q);
    PrevNext(r, q, sh.n);
    if q == Next(r, sh.n) { HeadL(s, sh, own, r); }
  }

  lemma StepKeeps(s: State, sh: Shape, own: seq<int>, r: nat, kind: Kind)
    requires Inv(s, sh, own) && Enabled(s, sh, r, kind)
    ensures Inv(Apply(s, sh, r, kind), sh, own)
  {
    forall q: nat | q < sh.n ensures Good(Apply(s, sh, r, kind), sh, own, q) {
      match kind
      case SendR => SendRKeeps(s, sh, own, r, q);
      case RecvR => RecvRBuffer(s, sh, own, r, q); RecvRStreams(s, sh, own, r, q);
      case SendL => SendLKeeps(s, sh, own, r, q);
      case RecvL => RecvLBuffer(s, sh, own, r, q); RecvLStreams(s, sh, own, r, q);
    }
  }

  // ---------------------------------------------------------------- each slice once, and never two at a time

  /** The slice a rank takes in a receive is one it has neither started with nor taken before. */
  lemma ReceivesMissingSlice(sh: Shape, r: nat, c: Counts, d: nat)
    requires sh.Valid() && r < sh.n && c.recvR < sh.right && c.recvL <= sh.left
    ensures d <= c.recvR ==> Back(r, d, sh.n) != Back(r, c.recvR + 1, sh.n)
    ensures d <= c.recvL ==> Fwd(r, d, sh.n) != Back(r, c.recvR + 1, sh.n)
  {
  }

  lemma ReceivesMissingSliceLeft(sh: Shape, r: nat, c: Counts, d: nat)
    requires sh.Valid() && r < sh.n && c.recvR <= sh.right && c.recvL < sh.left
    ensures d <= c.recvR ==> Back(r, d, sh.n) != Fwd(r, c.recvL + 1, sh.n)
    ensures d <= c.recvL ==> Fwd(r, d, sh.n) != Fwd(r, c.recvL + 1, sh.n)
  {
  }

  /** In one step, what is being received is neither being sent nor received by the other ring. */
  lemma StepSlicesApart(sh: Shape, r: nat, k: nat)
    requires sh.Valid() && r < sh.n && k < sh.right
    ensures Back(r, k + 1, sh.n) != Back(r, k, sh.n)
    ensures k < sh.left ==>
      && Back(r, k + 1, sh.n) != Fwd(r, k, sh.n) && Back(r, k + 1, sh.n) != Fwd(r, k + 1, sh.n)
      && Fwd(r, k + 1, sh.n) != Back(r, k, sh.n) && Fwd(r, k + 1, sh.n) != Fwd(r, k, sh.n)
  {
  }

  // ---------------------------------------------------------------- runs

  datatype Event = Event(rank: nat, kind: Kind)

  ghost predicate Run(trace: seq<State>, events: seq<Event>, sh: Shape, own: seq<int>)
  {
    && sh.Valid() && |trace| == |events| + 1 && Initial(trace[0], sh, own)
    && forall i :: 0 <= i < |events| ==>
         Sized(trace[i], sh.n) && Enabled(trace[i], sh, events[i].rank, events[i].kind) &&
         trace[i + 1] == Apply(trace[i], sh, events[i].rank, events[i].kind)
  }

  lemma InitialInv(s: State, sh: Shape, own: seq<int>)
    requires sh.Valid() && Initial(s, sh, own)
    ensures Inv(s, sh, own)
  {
    forall r: nat | r < sh.n ensures Good(s, sh, own, r) {
      assert Back(r, 0, sh.n) == r == Fwd(r, 0, sh.n);
    }
  }

  lemma {:induction false} RunInv(trace: seq<State>, events: seq<Event>, sh: Shape, own: seq<int>, i: nat)
    requires Run(trace, events, sh, own) && i < |trace|
    ensures Inv(trace[i], sh, own)
  {
    if i == 0 {
      InitialInv(trace[0], sh, own);
    } else {
      RunInv(trace, events, sh, own, i - 1);
      StepKeeps(trace[i - 1], sh, own, events[i - 1].rank, events[i - 1].kind);
    }
  }

  /** Every slice lies within reach of one of the two rings. */
  lemma SliceReached(sh: Shape, r: nat, j: nat)
    requires sh.Valid() && r < sh.n && j < sh.n
    ensures exists d: nat :: (d <= sh.right && Back(r, d, sh.n) == j) || (d <= sh.left && Fwd(r, d, sh.n) == j)
  {
    var d := Wrap(r - j + sh.n, sh.n);
    if d <= sh.right {
      assert Back(r, d, sh.n) == j;
    } else {
      assert sh.n - d <= sh.left && Fwd(r, sh.n - d, sh.n) == j;
    }
  }

  /**
   * In every interleaving, a rank that has finished its steps holds every rank's slice.  The final
   * buffer is the same for every shape, so the double ring agrees with the simple one.
   */
  lemma AllGathered(trace: seq<State>, events: seq<Event>, sh: Shape, own: seq<int>, i: nat, r: nat)
    requires Run(trace, events, sh, own) && i < |trace| && r < sh.n
    requires Sized(trace[i], sh.n) && Finished(trace[i], sh, r)
    ensures trace[i].data[r] == own
  {
    RunInv(trace, events, sh, own, i);
    var s := trace[i];
    assert Good(s, sh, own, r);
    forall j: nat | j < sh.n ensures s.data[r][j] == own[j] {
      SliceReached(sh, r, j);
    }
  }

  /** The step a rank is in: the least count among its unfinished transfers. */
  function StepOf(c: Counts, sh: Shape): nat
  {
    var right := Min(c.sendR, c.recvR);
    var left := Min(c.sendL, c.recvL);
    if left < sh.left then Min(right, left) else right
  }

  lemma {:induction false} Slowest(s: State, sh: Shape, m: nat) returns (p: nat)
    requires Sized(s, sh.n) && 0 < m <= sh.n
    ensures p < m && forall q: nat :: q < m ==> StepOf(s.counts[p], sh) <= StepOf(s.counts[q], sh)
  {
    p := m - 1;
    if 1 < m {
      var q := Slowest(s, sh, m - 1);
      if StepOf(s.counts[q], sh) < StepOf(s.counts[p], sh) { p := q; }
    }
  }

  /** Seen from the slowest rank, in step `k`: a pending send is possible. */
  lemma CanSend(s: State, sh: Shape, own: seq<int>, r: nat, k: nat)
    requires Inv(s, sh, own) && r < sh.n && k < sh.right && k <= StepOf(s.counts[r], sh)
    ensures s.counts[r].sendR == k ==> Enabled(s, sh, r, SendR)
    ensures s.counts[r].sendL == k < sh.left ==> Enabled(s, sh, r, SendL)
  {
    assert Good(s, sh, own, r);
  }

  lemma CanRecv(s: State, sh: Shape, own: seq<int>, r: nat, k: nat)
    requires Inv(s, sh, own) && r < sh.n && k < sh.right && k == StepOf(s.counts[r], sh)
    ensures s.counts[r].recvR == k < s.counts[Prev(r, sh.n)].sendR ==> Enabled(s, sh, r, RecvR)
    ensures s.counts[r].recvL == k < sh.left && k < s.counts[Next(r, sh.n)].sendL ==> Enabled(s, sh, r, RecvL)
  {
    var p, q := Prev(r, sh.n), Next(r, sh.n);
    PrevNext(r, q, sh.n);
    assert Good(s, sh, own, r) && Good(s, sh, own, p) && Good(s, sh, own, q);
  }

  lemma Behind(s: State, sh: Shape, own: seq<int>, u: nat)
    requires Inv(s, sh, own) && u < sh.n && !Finished(s, sh, u)
    ensures StepOf(s.counts[u], sh) < sh.right
  {
    assert Good(s, sh, own, u);
  }

  /** Until every rank has finished, some transfer can happen: no deadlock. */
  lemma NoDeadlock(s: State, sh: Shape, own: seq<int>, u: nat) returns (r: nat, kind: Kind)
    requires Inv(s, sh, own) && u < sh.n && !Finished(s, sh, u)
    ensures Enabled(s, sh, r, kind)
  {
    r := Slowest(s, sh, sh.n);
    Behind(s, sh, own, u);
    var k, c, p, q := StepOf(s.counts[r], sh), s.counts[r], Prev(r, sh.n), Next(r, sh.n);
    assert k < sh.right;
    CanSend(s, sh, own, r, k);
    CanSend(s, sh, own, p, k);
    CanSend(s, sh, own, q, k);
    CanRecv(s, sh, own, r, k);
    if c.sendR == k {
      kind := SendR;
    } else if c.sendL == k < sh.left {
      kind := SendL;
    } else if c.recvR == k {
      if s.counts[p].sendR == k { r, kind := p, SendR; } else { kind := RecvR; }
    } else {
      if s.counts[q].sendL == k { r, kind := q, SendL; } else { kind := RecvL; }
    }
  }
}
