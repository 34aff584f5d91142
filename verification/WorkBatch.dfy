/**
 * Work batches (nccl/src/enqueue.cc `addWorkBatchToPlan`; nccl/src/device/common.h
 * `loadWorkBatchToShmem`).  The host encodes the work items of each channel as batches of a base
 * offset and a 64-bit set; batches that extend the previous one are fused on the device.
 */
module WorkBatch {
  import opened Arith

  const MAX_BATCH_BYTES: nat := 1024 // NCCL_MAX_DEV_WORK_BATCH_BYTES
  const MAX_P2P_PER_BATCH: nat := 8   // NCCL_MAX_DEV_WORK_P2P_PER_BATCH

  const BITSET_WIDTH: nat := 64

  datatype Kind = P2p | Coll | CollReg

  /** The sizes of the three work structs. */
  datatype Sizes = Sizes(p2p: nat, coll: nat, collReg: nat) {

    predicate Valid()
    {
      0 < p2p <= MAX_BATCH_BYTES && 0 < coll <= MAX_BATCH_BYTES && 0 < collReg <= MAX_BATCH_BYTES
    }

    function Of(k: Kind): nat
    {
      match k case P2p => p2p case Coll => coll case CollReg => collReg
    }
  }

  datatype Work = Work(kind: Kind, func: nat, offset: nat, round: nat)

  /** `bits` is the set of bit positions of `offsetBitset`. */
  datatype Batch = Batch(kind: Kind, func: nat, base: nat, bits: set<nat>, nextExtends: bool, jump: nat)

  /** What the device holds after loading a fused batch. */
  datatype Loaded = Loaded(kind: Kind, func: nat, offsets: seq<nat>)

  // ---------------------------------------------------------------- the device side

  /** The set bits below position `n`, in ascending order. */
  function Ascending(bits: set<nat>, n: nat): seq<nat>
  {
    if n == 0 then [] else Ascending(bits, n - 1) + if n - 1 in bits then [n - 1] else []
  }

  function WorkAt(base: nat, i: nat, size: nat): nat { base + i * size }

  /** The works of one batch: the n-th set bit gives the n-th work. */
  function Offsets(sz: Sizes, b: Batch): seq<nat>
  {
    Places(b.base, sz.Of(b.kind), Ascending(b.bits, BITSET_WIDTH))
  }

  function Places(base: nat, size: nat, a: seq<nat>): (r: seq<nat>)
    ensures |r| == |a| && forall n :: 0 <= n < |a| ==> r[n] == WorkAt(base, a[n], size)
  {
    seq(|a|, n requires 0 <= n < |a| => WorkAt(base, a[n], size))
  }

  /** What a channel executes, given its batches in order; `acc` are the works of batches fused so far. */
  function Load(sz: Sizes, q: seq<Batch>, acc: seq<nat>): seq<Loaded>
    decreases |q|
  {
    if q == [] then []
    else
      var b, offsets := q[0], acc + Offsets(sz, q[0]);
      if b.nextExtends then Load(sz, q[1..], offsets)
      else [Loaded(b.kind, b.func, offsets)] + Load(sz, q[1..], [])
  }

  /** Bits below a position: how the device finds the rank of a bit. */
  function Below(bits: set<nat>, i: nat): set<nat> { set j | j in bits && j < i }

  lemma {:induction false} NthBelow(bits: set<nat>, i: nat, n: nat)
    requires i in bits
    ensures |Ascending(bits, n)| == |Below(bits, n)|
    ensures i < n ==> |Below(bits, i)| < |Ascending(bits, n)| && Ascending(bits, n)[|Below(bits, i)|] == i
  {
    if n == 0 {
      assert Below(bits, 0) == {};
    } else {
      NthBelow(bits, i, n - 1);
      assert Below(bits, n) == Below(bits, n - 1) + (if n - 1 in bits then {n - 1} else {});
    }
  }

  /** Counting the set bits below a set bit gives its place among the loaded works. */
  lemma NthSetBit(sz: Sizes, b: Batch, i: nat)
    requires i < BITSET_WIDTH && i in b.bits
    ensures |Below(b.bits, i)| < |Offsets(sz, b)|
    ensures Offsets(sz, b)[|Below(b.bits, i)|] == WorkAt(b.base, i, sz.Of(b.kind))
  {
    NthBelow(b.bits, i, BITSET_WIDTH);
  }

  // ---------------------------------------------------------------- changing the last batch

  lemma {:induction false} AscendingHigher(bits: set<nat>, k: nat, n: nat)
    requires forall j :: j in bits ==> j < k
    ensures Ascending(bits + {k}, n) == Ascending(bits, n) + if k < n then [k] else []
  {
    if 0 < n { AscendingHigher(bits, k, n - 1); }
  }

  /** Setting a bit above all others adds one work at the end of the batch. */
  lemma OffsetsHigher(sz: Sizes, b: Batch, k: nat)
    requires k < BITSET_WIDTH && forall j :: j in b.bits ==> j < k
    ensures Offsets(sz, b.(bits := b.bits + {k})) == Offsets(sz, b) + [WorkAt(b.base, k, sz.Of(b.kind))]
  {
    AscendingHigher(b.bits, k, BITSET_WIDTH);
  }

  lemma OffsetsSingle(sz: Sizes, b: Batch)
    requires b.bits == {0}
    ensures Offsets(sz, b) == [b.base]
  {
    AscendingHigher({}, 0, BITSET_WIDTH);
    AscendingEmpty(BITSET_WIDTH);
    assert {} + {0} == b.bits;
  }

  lemma {:induction false} AscendingEmpty(n: nat)
    ensures Ascending({}, n) == []
  {
    if 0 < n { AscendingEmpty(n - 1); }
  }

  /** One more work in the last fused batch. */
  function AppendLast(l: seq<Loaded>, o: nat): seq<Loaded>
    requires l != []
  {
    l[..|l| - 1] + [l[|l| - 1].(offsets := l[|l| - 1].offsets + [o])]
  }

  lemma AppendLastCons(x: Loaded, l: seq<Loaded>, o: nat)
    requires l != []
    ensures AppendLast([x] + l, o) == [x] + AppendLast(l, o)
  {
  }

  /** A chain of batches can be read up to its last batch. */
  predicate Closed(q: seq<Batch>)
  {
    q != [] && !q[|q| - 1].nextExtends
  }

  lemma {:induction false} LoadNewBatch(sz: Sizes, q: seq<Batch>, n: Batch, acc: seq<nat>)
    requires Closed(q) && !n.nextExtends
    ensures Load(sz, q + [n], acc) == Load(sz, q, acc) + [Loaded(n.kind, n.func, Offsets(sz, n))]
    decreases |q|
  {
    var r := q + [n];
    assert r[0] == q[0] && r[1..] == q[1..] + [n];
    if q[0].nextExtends {
      LoadNewBatch(sz, q[1..], n, acc + Offsets(sz, q[0]));
    } else if |q| == 1 {
      assert r[1..] == [n] && [n][1..] == [];
      assert [] + Offsets(sz, n) == Offsets(sz, n);
    } else {
      LoadNewBatch(sz, q[1..], n, []);
    }
  }

  /** The batches `t` load what `b` loads and one more work. */
  ghost predicate OneMore(sz: Sizes, b: Batch, t: seq<Batch>, o: nat)
  {
    forall a :: OneMoreAfter(sz, b, t, o, a)
  }

  predicate OneMoreAfter(sz: Sizes, b: Batch, t: seq<Batch>, o: nat, a: seq<nat>)
  {
    Load(sz, t, a) == [Loaded(b.kind, b.func, a + Offsets(sz, b) + [o])]
  }

  lemma LoadOne(sz: Sizes, b: Batch, acc: seq<nat>)
    requires !b.nextExtends
    ensures Load(sz, [b], acc) == [Loaded(b.kind, b.func, acc + Offsets(sz, b))]
  {
    assert [b][1..] == [];
  }

  lemma LoadStep(sz: Sizes, b: Batch, q: seq<Batch>, acc: seq<nat>)
    ensures Load(sz, [b] + q, acc) ==
      if b.nextExtends then Load(sz, q, acc + Offsets(sz, b))
      else [Loaded(b.kind, b.func, acc + Offsets(sz, b))] + Load(sz, q, [])
  {
    assert ([b] + q)[1..] == q;
  }

  /** The last batch replaced by batches that load one more work. */
  lemma {:induction false} LoadLastReplaced(sz: Sizes, p: seq<Batch>, b: Batch, t: seq<Batch>, o: nat, acc: seq<nat>)
    requires !b.nextExtends && OneMore(sz, b, t, o)
    ensures Load(sz, p + [b], acc) != [] && Load(sz, p + t, acc) == AppendLast(Load(sz, p + [b], acc), o)
    decreases |p|
  {
    if p == [] {
      assert p + [b] == [b] && p + t == t && OneMoreAfter(sz, b, t, o, acc);
      LoadOne(sz, b, acc);
    } else {
      var h, r := p[0], p[1..];
      var a := if h.nextExtends then acc + Offsets(sz, h) else [];
      LoadLastReplaced(sz, r, b, t, o, a);
      LoadStep(sz, h, r + [b], acc);
      LoadStep(sz, h, r + t, acc);
      assert p + [b] == [h] + (r + [b]) && p + t == [h] + (r + t);
      AppendLastCons(Loaded(h.kind, h.func, acc + Offsets(sz, h)), Load(sz, r + [b], a), o);
    }
  }

  // ---------------------------------------------------------------- the host side

  /**
   * Works that may be fused: one kind and function, at most 1024 bytes, and for p2p at most 8
   * different rounds of one epoch.
   */
  ghost predicate GroupOk(sz: Sizes, g: seq<Work>)
  {
    && g != [] && (forall i :: 0 <= i < |g| ==> g[i].kind == g[0].kind && g[i].func == g[0].func)
    && |g| * sz.Of(g[0].kind) <= MAX_BATCH_BYTES
    && (g[0].kind.P2p? ==>
         && |g| <= MAX_P2P_PER_BATCH
         && (forall i, j :: 0 <= i < j < |g| ==> g[i].round != g[j].round)
         && (forall i :: 0 <= i < |g| ==> g[i].round / MAX_P2P_PER_BATCH == g[0].round / MAX_P2P_PER_BATCH))
  }

  function WorkOffsets(g: seq<Work>): (r: seq<nat>)
    ensures |r| == |g| && forall i :: 0 <= i < |g| ==> r[i] == g[i].offset
  {
    seq(|g|, i requires 0 <= i < |g| => g[i].offset)
  }

  function AsLoaded(g: seq<Work>): Loaded
    requires g != []
  {
    Loaded(g[0].kind, g[0].func, WorkOffsets(g))
  }

  ghost predicate GroupsOk(sz: Sizes, groups: seq<seq<Work>>)
  {
    forall i :: 0 <= i < |groups| ==> GroupOk(sz, groups[i])
  }

  /** The device loads exactly these groups. */
  ghost predicate Loads(loaded: seq<Loaded>, groups: seq<seq<Work>>)
  {
    |loaded| == |groups| && forall i :: 0 <= i < |groups| ==> groups[i] != [] && loaded[i] == AsLoaded(groups[i])
  }

  function LastOffset(g: seq<Work>): nat
    requires g != []
  {
    g[|g| - 1].offset
  }

  /** The last batch and the counters describe the last group, and later works lie behind it. */
  ghost predicate TailOk(sz: Sizes, b: Batch, g: seq<Work>, workBytes: nat, rounds: seq<nat>)
  {
    && g != [] && b.kind == g[0].kind && b.func == g[0].func && workBytes == |g| * sz.Of(b.kind)
    && b.base <= LastOffset(g)
    && (forall i :: i in b.bits ==> i < BITSET_WIDTH && WorkAt(b.base, i, sz.Of(b.kind)) <= LastOffset(g))
    && (b.kind.P2p? ==> |rounds| == |g| && forall i :: 0 <= i < |g| ==> rounds[i] == g[i].round)
  }

  function IsP2p(g: seq<Work>): nat { if g != [] && g[0].kind.P2p? then 1 else 0 }

  function CountP2p(groups: seq<seq<Work>>): nat
  {
    if groups == [] then 0
    else CountP2p(groups[..|groups| - 1]) + IsP2p(groups[|groups| - 1])
  }

  /** The counter is the number of fused p2p batches. */
  lemma {:induction false} CountP2pIs(groups: seq<seq<Work>>)
    requires forall i :: 0 <= i < |groups| ==> groups[i] != []
    ensures CountP2p(groups) == |set i | 0 <= i < |groups| && groups[i][0].kind.P2p?|
  {
    if groups != [] {
      var n := |groups| - 1;
      CountP2pIs(groups[..n]);
      var before, all := set i | 0 <= i < n && groups[..n][i][0].kind.P2p?,
        set i | 0 <= i < |groups| && groups[i][0].kind.P2p?;
      assert all == before + if groups[n][0].kind.P2p? then {n} else {};
    }
  }

  lemma ProductStep(n: nat, size: nat)
    ensures (n + 1) * size == n * size + size && 1 * size == size
  {
  }

  /** The conditions under which the code starts a new batch. */
  predicate Refuses(sz: Sizes, b: Batch, workBytes: nat, rounds: seq<nat>, w: Work)
  {
    || b.kind != w.kind || b.func != w.func || MAX_BATCH_BYTES < workBytes + sz.Of(w.kind)
    || (w.kind.P2p? && (|rounds| == MAX_P2P_PER_BATCH || RoundClash(rounds, w.round, |rounds|)))
  }

  /** The round, or another epoch, is among the first `n` rounds of the batch. */
  predicate RoundClash(rounds: seq<nat>, round: nat, n: nat)
    requires n <= |rounds|
  {
    exists i :: 0 <= i < n && (round == rounds[i] || round / MAX_P2P_PER_BATCH != rounds[i] / MAX_P2P_PER_BATCH)
  }

  /** They hold exactly when fusing the work would break a limit. */
  lemma RefusesIff(sz: Sizes, b: Batch, g: seq<Work>, workBytes: nat, rounds: seq<nat>, w: Work)
    requires GroupOk(sz, g) && TailOk(sz, b, g, workBytes, rounds)
    ensures Refuses(sz, b, workBytes, rounds, w) <==> !GroupOk(sz, g + [w])
  {
    var h := g + [w];
    ProductStep(|g|, sz.Of(b.kind));
    assert h[|g|] == w && h[0] == g[0] && |h| == |g| + 1;
    if b.kind == w.kind && b.func == w.func && workBytes + sz.Of(w.kind) <= MAX_BATCH_BYTES && w.kind.P2p? {
      assert forall i :: 0 <= i < |g| ==> h[i] == g[i] && rounds[i] == g[i].round;
      if !Refuses(sz, b, workBytes, rounds, w) {
        assert w.round / MAX_P2P_PER_BATCH == rounds[0] / MAX_P2P_PER_BATCH;
      } else if |rounds| != MAX_P2P_PER_BATCH {
        var i :| 0 <= i < |rounds| &&
          (w.round == rounds[i] || w.round / MAX_P2P_PER_BATCH != rounds[i] / MAX_P2P_PER_BATCH);
        assert h[i].round == rounds[i];
      }
    }
  }

  lemma GroupSingle(sz: Sizes, w: Work)
    requires sz.Valid()
    ensures GroupOk(sz, [w])
  {
    ProductStep(0, sz.Of(w.kind));
  }

  /** Setting the bit of a work behind all others of the last batch. */
  lemma FuseOneMore(sz: Sizes, b: Batch, k: nat)
    requires !b.nextExtends && k < BITSET_WIDTH && forall j :: j in b.bits ==> j < k
    ensures OneMore(sz, b, [b.(bits := b.bits + {k})], WorkAt(b.base, k, sz.Of(b.kind)))
  {
    var c, o := b.(bits := b.bits + {k}), WorkAt(b.base, k, sz.Of(b.kind));
    OffsetsHigher(sz, b, k);
    var t := [c];
    forall a ensures OneMoreAfter(sz, b, t, o, a) {
      LoadOne(sz, c, a);
      assert a + (Offsets(sz, b) + [o]) == a + Offsets(sz, b) + [o];
    }
  }

  /** An extension batch with a single work. */
  lemma ExtendOneMore(sz: Sizes, b: Batch, n: Batch)
    requires !b.nextExtends && !n.nextExtends && n.bits == {0} && n.kind == b.kind && n.func == b.func
    ensures OneMore(sz, b, [b.(nextExtends := true), n], n.base)
  {
    var c := b.(nextExtends := true);
    OffsetsSingle(sz, n);
    assert Offsets(sz, c) == Offsets(sz, b);
    var t := [c, n];
    forall a ensures OneMoreAfter(sz, b, t, n.base, a) {
      assert t == [c] + [n];
      LoadStep(sz, c, [n], a);
      LoadOne(sz, n, a + Offsets(sz, c));
    }
  }

  lemma BitAbove(base: nat, i: nat, k: nat, size: nat, last: nat)
    requires WorkAt(base, i, size) <= last < WorkAt(base, k, size)
    ensures i < k
  {
    if k <= i { MulMono(size, k, i); }
  }

  lemma LoadsAppend(loaded: seq<Loaded>, groups: seq<seq<Work>>, w: Work)
    requires Loads(loaded, groups) && groups != []
    ensures Loads(AppendLast(loaded, w.offset), groups[..|groups| - 1] + [groups[|groups| - 1] + [w]])
  {
    var g := groups[|groups| - 1];
    assert WorkOffsets(g + [w]) == WorkOffsets(g) + [w.offset];
  }

  lemma FuseTail(sz: Sizes, b: Batch, g: seq<Work>, workBytes: nat, rounds: seq<nat>, w: Work, k: nat)
    requires TailOk(sz, b, g, workBytes, rounds) && !Refuses(sz, b, workBytes, rounds, w) && LastOffset(g) < w.offset
    requires k < BITSET_WIDTH && w.offset == WorkAt(b.base, k, sz.Of(w.kind))
    ensures forall i :: i in b.bits ==> i < k
    ensures TailOk(sz, b.(bits := b.bits + {k}), g + [w], workBytes + sz.Of(w.kind),
      RoundsWith(rounds, w))
  {
    ProductStep(|g|, sz.Of(w.kind));
    forall i | i in b.bits ensures i < k { BitAbove(b.base, i, k, sz.Of(b.kind), LastOffset(g)); }
  }

  lemma ExtendTail(sz: Sizes, b: Batch, g: seq<Work>, workBytes: nat, rounds: seq<nat>, w: Work, n: Batch)
    requires TailOk(sz, b, g, workBytes, rounds) && !Refuses(sz, b, workBytes, rounds, w) && LastOffset(g) < w.offset
    requires n == Batch(w.kind, w.func, w.offset, {0}, false, 0)
    ensures TailOk(sz, n, g + [w], workBytes + sz.Of(w.kind), RoundsWith(rounds, w))
  {
    ProductStep(|g|, sz.Of(w.kind));
  }

  /** Batches are not linked before they are placed. */
  predicate NoJumps(q: seq<Batch>)
  {
    forall k :: 0 <= k < |q| ==> q[k].jump == 0
  }

  /** The works a channel has got, in groups, and its batches and counters. */
  ghost predicate ChannelOk(
      sz: Sizes, q: seq<Batch>, gs: seq<seq<Work>>, workBytes: nat, rounds: seq<nat>, nWorkBatchesP2p: nat)
  {
    && sz.Valid() && (q == [] <==> gs == []) && nWorkBatchesP2p == CountP2p(gs)
    && GroupsOk(sz, gs) && Loads(Load(sz, q, []), gs)
    && NoJumps(q) && (q != [] ==> Closed(q) && TailOk(sz, q[|q| - 1], gs[|gs| - 1], workBytes, rounds))
  }

  /** The rounds of the last batch with one more work. */
  function RoundsWith(rounds: seq<nat>, w: Work): seq<nat>
  {
    if w.kind.P2p? then rounds + [w.round] else rounds
  }

  /** The groups with one more work in the last one. */
  function LastGrown(gs: seq<seq<Work>>, w: Work): seq<seq<Work>>
    requires gs != []
  {
    gs[..|gs| - 1] + [gs[|gs| - 1] + [w]]
  }

  /** The state of one channel while a plan is being built. */
  class WipChannel {
    const sz: Sizes
    var queue: seq<Batch>
    var workBytes: nat
    var rounds: seq<nat>
    var nWorkBatchesP2p: nat
    ghost var groups: seq<seq<Work>>

    ghost predicate Valid()
      reads this
    {
      ChannelOk(sz, queue, groups, workBytes, rounds, nWorkBatchesP2p)
    }

    constructor (sz: Sizes)
      requires sz.Valid()
      ensures Valid() && queue == [] && groups == [] && this.sz == sz
    {
      this.sz := sz;
      queue, workBytes, rounds, nWorkBatchesP2p := [], 0, [], 0;
      groups := [];
    }

    /** The test for a new batch. */
    method NeedsNewBatch(w: Work) returns (newBatch: bool)
      requires Valid()
      ensures newBatch == (queue == [] || Refuses(sz, queue[|queue| - 1], workBytes, rounds, w))
    {
      newBatch := queue == [];
      if !newBatch {
        var batch := queue[|queue| - 1];
        newBatch := batch.kind != w.kind || batch.func != w.func || MAX_BATCH_BYTES < workBytes + sz.Of(w.kind);
        if w.kind.P2p? {
          newBatch := newBatch || |rounds| == MAX_P2P_PER_BATCH;
          ghost var before := newBatch;
          for i := 0 to |rounds|
            invariant newBatch == (before || RoundClash(rounds, w.round, i))
          {
            newBatch := newBatch || w.round == rounds[i] ||
              w.round / MAX_P2P_PER_BATCH != rounds[i] / MAX_P2P_PER_BATCH;
          }
        }
      }
    }

    /** A new blank batch for the work. */
    method StartBatch(w: Work)
      requires Valid()
      modifies this
      ensures Valid() && groups == old(groups) + [[w]] && |queue| == |old(queue)| + 1
    {
      var n := Batch(w.kind, w.func, w.offset, {0}, false, 0);
      StartOk(sz, queue, groups, workBytes, rounds, nWorkBatchesP2p, n, w);
      queue := queue + [n];
      workBytes := sz.Of(w.kind);
      rounds := if w.kind.P2p? then [w.round] else [];
      nWorkBatchesP2p := nWorkBatchesP2p + if w.kind.P2p? then 1 else 0;
      groups := groups + [[w]];
    }

    /** The work in an extension of the last batch. */
    method ExtendBatch(w: Work)
      requires Valid() && queue != [] && !Refuses(sz, queue[|queue| - 1], workBytes, rounds, w)
      requires LastOffset(groups[|groups| - 1]) < w.offset
      modifies this
      ensures Valid() && groups == LastGrown(old(groups), w) && |queue| == |old(queue)| + 1
    {
      var last := |queue| - 1;
      var b, n := queue[last], Batch(w.kind, w.func, w.offset, {0}, false, 0);
      ExtendOk(sz, queue, groups, workBytes, rounds, nWorkBatchesP2p, n, w);
      queue, workBytes, rounds, groups := queue[last := b.(nextExtends := true)] + [n], workBytes + sz.Of(w.kind),
        RoundsWith(rounds, w), LastGrown(groups, w);
    }

    /** The work as one more bit of the last batch. */
    method FuseWork(w: Work, k: nat)
      requires Valid() && queue != [] && !Refuses(sz, queue[|queue| - 1], workBytes, rounds, w)
      requires LastOffset(groups[|groups| - 1]) < w.offset && k < BITSET_WIDTH
      requires w.offset == WorkAt(queue[|queue| - 1].base, k, sz.Of(w.kind))
      modifies this
      ensures Valid() && groups == LastGrown(old(groups), w) && |queue| == |old(queue)|
    {
      var last := |queue| - 1;
      var b := queue[last];
      FuseOk(sz, queue, groups, workBytes, rounds, nWorkBatchesP2p, k, w);
      queue, workBytes, rounds, groups := queue[last := b.(bits := b.bits + {k})], workBytes + sz.Of(w.kind),
        RoundsWith(rounds, w), LastGrown(groups, w);
    }

    /**
     * addWorkBatchToPlan for this channel.  Works come with increasing offsets.  The work joins
     * the last fused batch exactly when that keeps within the limits.
     */
    method AddWork(w: Work)
      requires Valid() && (groups != [] ==> LastOffset(groups[|groups| - 1]) < w.offset)
      modifies this
      ensures Valid()
      ensures var gs := old(groups);
        groups == if gs == [] || !GroupOk(sz, gs[|gs| - 1] + [w]) then gs + [[w]] else LastGrown(gs, w)
      ensures var gs, q := old(groups), old(queue);
        |queue| == if gs != [] && GroupOk(sz, gs[|gs| - 1] + [w]) && Reachable(q[|q| - 1], w, sz) then |q| else |q| + 1
    {
      var newBatch := NeedsNewBatch(w);
      if newBatch {
        if queue != [] { RefusesIff(sz, queue[|queue| - 1], groups[|groups| - 1], workBytes, rounds, w); }
        StartBatch(w);
      } else {
        var b, size := queue[|queue| - 1], sz.Of(w.kind);
        RefusesIff(sz, b, groups[|groups| - 1], workBytes, rounds, w);
        var offset := w.offset - b.base;
        if 63 * size < offset || offset % size != 0 {
          NoBitIndex(offset, size);
          ExtendBatch(w);
        } else {
          BitIndex(offset, size);
          FuseWork(w, offset / size);
        }
      }
    }
  }

  /** Some bit of the batch stands for the work's offset. */
  predicate Reachable(b: Batch, w: Work, sz: Sizes)
  {
    exists k: nat :: k < 64 && w.offset == WorkAt(b.base, k, sz.Of(w.kind))
  }

  lemma NoBitIndex(offset: nat, size: nat)
    requires 0 < size && (63 * size < offset || offset % size != 0)
    ensures forall k: nat :: k < 64 ==> offset != k * size
  {
    forall k: nat | k < 64 ensures offset != k * size {
      MulMono(size, k, 63);
      assert k * size == size * k;
      MultipleMod(k, size);
    }
  }

  lemma BitIndex(offset: nat, size: nat)
    requires 0 < size && offset <= 63 * size && offset % size == 0
    ensures offset / size < BITSET_WIDTH && offset == offset / size * size
  {
    var k := offset / size;
    assert offset == k * size;
    MulMono(size, 64, if k < 64 then 64 else k);
  }

  lemma StartKeeps(sz: Sizes, q: seq<Batch>, gs: seq<seq<Work>>, n: Batch, w: Work)
    requires sz.Valid() && (q == [] <==> gs == []) && GroupsOk(sz, gs) && Loads(Load(sz, q, []), gs)
    requires q != [] ==> Closed(q)
    requires n == Batch(w.kind, w.func, w.offset, {0}, false, 0)
    ensures GroupsOk(sz, gs + [[w]]) && Loads(Load(sz, q + [n], []), gs + [[w]])
    ensures TailOk(sz, n, [w], sz.Of(w.kind), if w.kind.P2p? then [w.round] else [])
  {
    OffsetsSingle(sz, n);
    GroupSingle(sz, w);
    ProductStep(0, sz.Of(w.kind));
    if q == [] {
      assert q + [n] == [n];
      LoadOne(sz, n, []);
    } else {
      LoadNewBatch(sz, q, n, []);
    }
    assert WorkOffsets([w]) == [w.offset];
  }

  lemma StartOk(
      sz: Sizes, q: seq<Batch>, gs: seq<seq<Work>>, workBytes: nat, rounds: seq<nat>, nP2p: nat, n: Batch, w: Work)
    requires ChannelOk(sz, q, gs, workBytes, rounds, nP2p) && n == Batch(w.kind, w.func, w.offset, {0}, false, 0)
    ensures ChannelOk(sz, q + [n], gs + [[w]], sz.Of(w.kind), if w.kind.P2p? then [w.round] else [],
      nP2p + if w.kind.P2p? then 1 else 0)
  {
    StartKeeps(sz, q, gs, n, w);
    assert (gs + [[w]])[..|gs|] == gs;
  }

  lemma ExtendOk(
      sz: Sizes, q: seq<Batch>, gs: seq<seq<Work>>, workBytes: nat, rounds: seq<nat>, nP2p: nat, n: Batch, w: Work)
    requires ChannelOk(sz, q, gs, workBytes, rounds, nP2p) && q != []
    requires !Refuses(sz, q[|q| - 1], workBytes, rounds, w) && LastOffset(gs[|gs| - 1]) < w.offset
    requires n == Batch(w.kind, w.func, w.offset, {0}, false, 0)
    ensures ChannelOk(sz, q[|q| - 1 := q[|q| - 1].(nextExtends := true)] + [n], LastGrown(gs, w),
      workBytes + sz.Of(w.kind), RoundsWith(rounds, w), nP2p)
  {
    var b, g := q[|q| - 1], gs[|gs| - 1];
    assert q[|q| - 1 := b.(nextExtends := true)] + [n] == q[..|q| - 1] + [b.(nextExtends := true), n];
    RefusesIff(sz, b, g, workBytes, rounds, w);
    ExtendTail(sz, b, g, workBytes, rounds, w, n);
    ExtendOneMore(sz, b, n);
    LastGroupGrows(sz, q, gs, [b.(nextExtends := true), n], w);
  }

  lemma FuseOk(
      sz: Sizes, q: seq<Batch>, gs: seq<seq<Work>>, workBytes: nat, rounds: seq<nat>, nP2p: nat, k: nat, w: Work)
    requires ChannelOk(sz, q, gs, workBytes, rounds, nP2p) && q != [] && k < BITSET_WIDTH
    requires !Refuses(sz, q[|q| - 1], workBytes, rounds, w) && LastOffset(gs[|gs| - 1]) < w.offset
    requires w.offset == WorkAt(q[|q| - 1].base, k, sz.Of(w.kind))
    ensures var b := q[|q| - 1];
      ChannelOk(sz, q[|q| - 1 := b.(bits := b.bits + {k})], LastGrown(gs, w), workBytes + sz.Of(w.kind),
        RoundsWith(rounds, w), nP2p)
  {
    var b, g := q[|q| - 1], gs[|gs| - 1];
    assert q[|q| - 1 := b.(bits := b.bits + {k})] == q[..|q| - 1] + [b.(bits := b.bits + {k})];
    RefusesIff(sz, b, g, workBytes, rounds, w);
    FuseTail(sz, b, g, workBytes, rounds, w, k);
    FuseOneMore(sz, b, k);
    LastGroupGrows(sz, q, gs, [b.(bits := b.bits + {k})], w);
  }

  lemma LastGroupGrows(sz: Sizes, q: seq<Batch>, gs: seq<seq<Work>>, t: seq<Batch>, w: Work)
    requires Closed(q) && gs != [] && GroupsOk(sz, gs) && Loads(Load(sz, q, []), gs) && GroupOk(sz, gs[|gs| - 1] + [w])
    requires OneMore(sz, q[|q| - 1], t, w.offset)
    ensures var gs' := LastGrown(gs, w);
      && GroupsOk(sz, gs') && Loads(Load(sz, q[..|q| - 1] + t, []), gs') && CountP2p(gs') == CountP2p(gs)
  {
    var last, gs' := |q| - 1, LastGrown(gs, w);
    LoadLastReplaced(sz, q[..last], q[last], t, w.offset, []);
    assert q == q[..last] + [q[last]];
    LoadsAppend(Load(sz, q, []), gs, w);
    assert gs'[..|gs'| - 1] == gs[..|gs| - 1];
  }
}
