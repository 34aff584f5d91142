/**
 * From the works of a plan to what the device reads (nccl/src/enqueue.cc: `addWorkBatchToPlan`
 * called with the running byte count, `finishPlan`, `uploadWork` with the rebasing of the batches;
 * nccl/src/device/common.h).  The n-th work that a channel's block loads, by following the jumps
 * from its slot and masking the offsets, is the n-th work that was added to the channel.
 */
module PlanUpload {
  import opened Arith
  import opened WorkBatch
  import opened BatchPlacement
  import opened WorkFifo

  // ---------------------------------------------------------------- the works of a plan

  /** A work struct in the plan's queue, as 16-byte chunks, and the channels that execute it. */
  datatype Item = Item(kind: Kind, func: nat, round: nat, chunks: seq<int>, channels: set<nat>)

  predicate ItemsOk(sz: Sizes, items: seq<Item>)
  {
    sz.Valid() && forall i :: 0 <= i < |items| ==> CHUNK * |items[i].chunks| == sz.Of(items[i].kind)
  }

  /** Chunks before work `j`: the plan's byte count, in chunks, when the work is added. */
  function ChunksBefore(items: seq<Item>, j: nat): nat
    requires j <= |items|
  {
    if j == 0 then 0 else ChunksBefore(items, j - 1) + |items[j - 1].chunks|
  }

  /** The work of the plan in the order in which it is uploaded. */
  function AllChunks(items: seq<Item>, j: nat): (c: seq<int>)
    requires j <= |items|
    ensures |c| == ChunksBefore(items, j)
  {
    if j == 0 then [] else AllChunks(items, j - 1) + items[j - 1].chunks
  }

  lemma {:induction false} ChunkPlace(items: seq<Item>, n: nat, i: nat, j: nat)
    requires i < n <= |items| && j < |items[i].chunks|
    ensures ChunksBefore(items, i) + j < ChunksBefore(items, n)
    ensures AllChunks(items, n)[ChunksBefore(items, i) + j] == items[i].chunks[j]
  {
    if i < n - 1 { ChunkPlace(items, n - 1, i, j); }
  }

  /** The works given to channel `c` among the first `n`, by index. */
  function Given(items: seq<Item>, n: nat, c: nat): seq<nat>
    requires n <= |items|
  {
    if n == 0 then [] else Given(items, n - 1, c) + if c in items[n - 1].channels then [n - 1] else []
  }

  /** These are exactly the works whose channels include `c`, each once, in the order of the plan. */
  lemma {:induction false} GivenExact(items: seq<Item>, n: nat, c: nat)
    requires n <= |items|
    ensures var g := Given(items, n, c);
      && (forall i: nat :: i in g <==> i < n && c in items[i].channels)
      && (forall a, b :: 0 <= a < b < |g| ==> g[a] < g[b])
  {
    if n != 0 {
      GivenExact(items, n - 1, c);
      var g, h := Given(items, n - 1, c), Given(items, n, c);
      forall i: nat ensures i in h <==> i < n && c in items[i].channels {
        assert i in h <==> i in g || (i == n - 1 && c in items[n - 1].channels);
      }
      forall a, b | 0 <= a < b < |h| ensures h[a] < h[b] { assert h[a] in g; }
    }
  }

  /** The arguments with which a work is added to a channel. */
  function WorkOf(items: seq<Item>, i: nat): Work
    requires i < |items|
  {
    Work(items[i].kind, items[i].func, CHUNK * ChunksBefore(items, i), items[i].round)
  }

  function WorksOn(items: seq<Item>, n: nat, c: nat): seq<Work>
    requires n <= |items|
  {
    if n == 0 then [] else WorksOn(items, n - 1, c) + if c in items[n - 1].channels then [WorkOf(items, n - 1)] else []
  }

  lemma {:induction false} WorksAreGiven(items: seq<Item>, n: nat, c: nat)
    requires n <= |items|
    ensures var w, g := WorksOn(items, n, c), Given(items, n, c);
      |w| == |g| && forall m :: 0 <= m < |g| ==> g[m] < n && w[m] == WorkOf(items, g[m])
  {
    if 0 < n { WorksAreGiven(items, n - 1, c); }
  }

  lemma {:induction false} WorksBelow(sz: Sizes, items: seq<Item>, n: nat, c: nat)
    requires ItemsOk(sz, items) && n <= |items|
    ensures var w := WorksOn(items, n, c); w != [] ==> w[|w| - 1].offset < CHUNK * ChunksBefore(items, n)
  {
    if 0 < n { WorksBelow(sz, items, n - 1, c); }
  }

  // ---------------------------------------------------------------- groups and loaded works, flattened

  function Flatten(groups: seq<seq<Work>>): seq<Work>
  {
    if groups == [] then [] else Flatten(groups[..|groups| - 1]) + groups[|groups| - 1]
  }

  /** A work as the device sees it. */
  datatype Ref = Ref(kind: Kind, func: nat, offset: nat)

  function RefsIn(l: Loaded): (r: seq<Ref>)
    ensures |r| == |l.offsets| && forall i :: 0 <= i < |r| ==> r[i] == Ref(l.kind, l.func, l.offsets[i])
  {
    seq(|l.offsets|, i requires 0 <= i < |l.offsets| => Ref(l.kind, l.func, l.offsets[i]))
  }

  /** The works a channel executes, in order. */
  function Refs(loaded: seq<Loaded>): seq<Ref>
  {
    if loaded == [] then [] else Refs(loaded[..|loaded| - 1]) + RefsIn(loaded[|loaded| - 1])
  }

  ghost predicate RefersTo(refs: seq<Ref>, works: seq<Work>)
  {
    |refs| == |works| && forall m :: 0 <= m < |works| ==> refs[m] == Ref(works[m].kind, works[m].func, works[m].offset)
  }

  lemma {:induction false} LoadedRefs(sz: Sizes, loaded: seq<Loaded>, groups: seq<seq<Work>>)
    requires Loads(loaded, groups) && GroupsOk(sz, groups)
    ensures RefersTo(Refs(loaded), Flatten(groups))
  {
    if groups != [] {
      var n := |groups| - 1;
      assert GroupOk(sz, groups[n]);
      LoadedRefs(sz, loaded[..n], groups[..n]);
    }
  }

  /** The last work of the groups is the last one added. */
  lemma FlattenLast(groups: seq<seq<Work>>)
    requires groups != [] && groups[|groups| - 1] != []
    ensures var f, g := Flatten(groups), groups[|groups| - 1]; f != [] && f[|f| - 1] == g[|g| - 1]
  {
  }

  lemma FlattenNew(groups: seq<seq<Work>>, g: seq<Work>)
    ensures Flatten(groups + [g]) == Flatten(groups) + g
  {
    assert (groups + [g])[..|groups|] == groups;
  }

  lemma FlattenGrown(groups: seq<seq<Work>>, w: Work)
    requires groups != []
    ensures Flatten(LastGrown(groups, w)) == Flatten(groups) + [w]
  {
    var n := |groups| - 1;
    var a, g := groups[..n], groups[n];
    FlattenNew(a, g + [w]);
    Assoc(Flatten(a), g, [w]);
  }

  /** One more work for a channel; works come with increasing offsets. */
  method AddNext(channel: WipChannel, w: Work)
    requires channel.Valid()
    requires var f := Flatten(channel.groups); f != [] ==> f[|f| - 1].offset < w.offset
    modifies channel
    ensures channel.Valid() && Flatten(channel.groups) == old(Flatten(channel.groups)) + [w]
  {
    ghost var gs := channel.groups;
    if gs != [] {
      assert GroupOk(channel.sz, gs[|gs| - 1]);
      FlattenLast(gs);
      FlattenGrown(gs, w);
    }
    FlattenNew(gs, [w]);
    channel.AddWork(w);
  }

  // ---------------------------------------------------------------- building the plan

  ghost predicate Builds(channel: WipChannel, sz: Sizes, works: seq<Work>)
    reads channel
  {
    channel.Valid() && channel.sz == sz && Flatten(channel.groups) == works
  }

  ghost predicate AllBuild(channels: seq<WipChannel>, sz: Sizes, items: seq<Item>, i: nat, c: nat)
    requires i <= |items| && (0 < c ==> i < |items|)
    reads channels
  {
    forall d: nat :: d < |channels| ==> Builds(channels[d], sz, WorksOn(items, if d < c then i + 1 else i, d))
  }

  /** The turn of channel `c`. */
  method AddToChannel(channel: WipChannel, sz: Sizes, items: seq<Item>, i: nat, c: nat, workBytes: nat)
    requires ItemsOk(sz, items) && i < |items| && workBytes == CHUNK * ChunksBefore(items, i)
    requires Builds(channel, sz, WorksOn(items, i, c))
    modifies channel
    ensures Builds(channel, sz, WorksOn(items, i + 1, c))
  {
    if c in items[i].channels {
      WorksBelow(sz, items, i, c);
      AddNext(channel, Work(items[i].kind, items[i].func, workBytes, items[i].round));
    }
  }

  method ChannelTurn(channels: seq<WipChannel>, sz: Sizes, items: seq<Item>, i: nat, c: nat, workBytes: nat)
    requires ItemsOk(sz, items) && i < |items| && workBytes == CHUNK * ChunksBefore(items, i)
    requires Distinct(channels) && c < |channels| && AllBuild(channels, sz, items, i, c)
    modifies channels[c]
    ensures AllBuild(channels, sz, items, i, c + 1)
  {
    assert Builds(channels[c], sz, WorksOn(items, i, c));
    AddToChannel(channels[c], sz, items, i, c, workBytes);
    forall d: nat | d < |channels|
      ensures Builds(channels[d], sz, WorksOn(items, if d < c + 1 then i + 1 else i, d))
    {
      assert d != c ==> channels[d] != channels[c];
      assert d != c ==> old(Builds(channels[d], sz, WorksOn(items, if d < c then i + 1 else i, d)));
    }
  }

  /** Work `i` of the plan is added to its channels at the plan's running byte count. */
  method AddItem(channels: seq<WipChannel>, sz: Sizes, items: seq<Item>, i: nat, workBytes: nat)
    requires ItemsOk(sz, items) && i < |items| && workBytes == CHUNK * ChunksBefore(items, i)
    requires Distinct(channels) && AllBuild(channels, sz, items, i, 0)
    modifies channels
    ensures AllBuild(channels, sz, items, i + 1, 0)
  {
    for c := 0 to |channels|
      invariant AllBuild(channels, sz, items, i, c)
    {
      ChannelTurn(channels, sz, items, i, c, workBytes);
    }
    assert forall d: nat {:trigger channels[d]} :: d < |channels| ==> Builds(channels[d], sz, WorksOn(items, i + 1, d));
  }

  /** The channels of the plan: `channelMask`. */
  function Mask(items: seq<Item>, n: nat): set<nat>
    requires n <= |items|
  {
    if n == 0 then {} else Mask(items, n - 1) + items[n - 1].channels
  }

  lemma {:induction false} MaskIff(items: seq<Item>, n: nat, c: nat)
    requires n <= |items|
    ensures c in Mask(items, n) <==> Given(items, n, c) != []
  {
    if 0 < n { MaskIff(items, n - 1, c); }
  }

  /** Makes the channels of a fresh plan. */
  method NewChannels(sz: Sizes, nChannels: nat, ghost items: seq<Item>) returns (channels: seq<WipChannel>)
    requires sz.Valid()
    ensures |channels| == nChannels && Distinct(channels) && fresh(channels) && AllBuild(channels, sz, items, 0, 0)
  {
    channels := [];
    for c := 0 to nChannels
      invariant |channels| == c && Distinct(channels) && fresh(channels) && AllBuild(channels, sz, items, 0, 0)
    {
      var channel := new WipChannel(sz);
      assert channel.groups == [];
      channels := channels + [channel];
    }
  }

  /** The batches of a channel, ready for placement. */
  ghost predicate QueueOf(sz: Sizes, queue: seq<Batch>, works: seq<Work>)
  {
    NoJumps(queue) && (works != [] ==> Closed(queue)) && RefersTo(Refs(Load(sz, queue, [])), works)
  }

  lemma BuiltQueue(channels: seq<WipChannel>, sz: Sizes, items: seq<Item>, c: nat)
    requires AllBuild(channels, sz, items, |items|, 0) && c < |channels|
    ensures QueueAt(sz, channels[c].queue, items, c)
  {
    assert Builds(channels[c], sz, WorksOn(items, |items|, c));
    LoadedRefs(sz, Load(sz, channels[c].queue, []), channels[c].groups);
  }

  /** The works of a plan are added one by one. */
  method AddItems(sz: Sizes, nChannels: nat, items: seq<Item>) returns (channels: seq<WipChannel>, mask: set<nat>)
    requires ItemsOk(sz, items)
    ensures |channels| == nChannels && fresh(channels) && AllBuild(channels, sz, items, |items|, 0)
    ensures mask == Mask(items, |items|)
  {
    channels := NewChannels(sz, nChannels, items);
    var workBytes := 0;
    mask := {};
    for i := 0 to |items|
      invariant workBytes == CHUNK * ChunksBefore(items, i) && mask == Mask(items, i)
      invariant AllBuild(channels, sz, items, i, 0)
    {
      AddItem(channels, sz, items, i, workBytes);
      workBytes := workBytes + CHUNK * |items[i].chunks|;
      mask := mask + items[i].channels;
    }
  }

  ghost predicate QueuesOf(sz: Sizes, queues: seq<seq<Batch>>, items: seq<Item>, order: seq<nat>)
  {
    |queues| == |order| && forall b :: 0 <= b < |order| ==> QueueAt(sz, queues[b], items, order[b])
  }

  ghost predicate QueueAt(sz: Sizes, queue: seq<Batch>, items: seq<Item>, c: nat)
  {
    QueueOf(sz, queue, WorksOn(items, |items|, c))
  }

  /** The batches of the channels in the mask, in ascending order of the channels. */
  method BuildPlan(sz: Sizes, nChannels: nat, items: seq<Item>) returns (queues: seq<seq<Batch>>)
    requires ItemsOk(sz, items)
    ensures QueuesOf(sz, queues, items, Ascending(Mask(items, |items|), nChannels))
  {
    var channels, mask := AddItems(sz, nChannels, items);
    queues := [];
    for c := 0 to nChannels
      invariant QueuesOf(sz, queues, items, Ascending(mask, c)) && AllBuild(channels, sz, items, |items|, 0)
    {
      if c in mask {
        BuiltQueue(channels, sz, items, c);
        QueuesGrow(sz, queues, items, Ascending(mask, c), channels[c].queue, c);
        queues := queues + [channels[c].queue];
      }
    }
  }

  lemma QueuesGrow(sz: Sizes, queues: seq<seq<Batch>>, items: seq<Item>, order: seq<nat>, queue: seq<Batch>, c: nat)
    requires QueuesOf(sz, queues, items, order) && QueueAt(sz, queue, items, c)
    ensures QueuesOf(sz, queues + [queue], items, order + [c])
  {
  }

  // ---------------------------------------------------------------- rebasing

  predicate SameAddress(x: nat, y: nat) { x % TWO_TO_32 == y % TWO_TO_32 }

  function RebasedBatch(b: Batch, base: nat): Batch
  {
    b.(base := (b.base + base) % TWO_TO_32)
  }

  ghost predicate Rebased(out': seq<Batch>, out: seq<Batch>, base: nat)
  {
    |out'| == |out| && forall k :: 0 <= k < |out| ==> out'[k] == RebasedBatch(out[k], base)
  }

  /** The loop that translates the offsets of the batches. */
  method Rebase(out: seq<Batch>, base: nat) returns (out': seq<Batch>)
    ensures Rebased(out', out, base)
  {
    out' := out;
    for b := 0 to |out|
      invariant |out'| == |out| && forall k :: 0 <= k < |out| ==>
        out'[k] == if k < b then RebasedBatch(out[k], base) else out[k]
    {
      out' := out'[b := out'[b].(base := (out'[b].base + base) % TWO_TO_32)];
    }
  }

  ghost predicate Shifted(a': seq<nat>, a: seq<nat>, base: nat)
  {
    |a'| == |a| && forall i :: 0 <= i < |a| ==> SameAddress(a'[i], a[i] + base)
  }

  ghost predicate ShiftedLoad(l': Loaded, l: Loaded, base: nat)
  {
    l'.kind == l.kind && l'.func == l.func && Shifted(l'.offsets, l.offsets, base)
  }

  ghost predicate ShiftedLoads(l': seq<Loaded>, l: seq<Loaded>, base: nat)
  {
    |l'| == |l| && forall i :: 0 <= i < |l| ==> ShiftedLoad(l'[i], l[i], base)
  }

  lemma ShiftedWork(x: nat, base: nat, d: nat)
    ensures SameAddress((x + base) % TWO_TO_32 + d, x + d + base)
  {
  }

  lemma ShiftedOffsets(sz: Sizes, b: Batch, base: nat)
    ensures Shifted(Offsets(sz, RebasedBatch(b, base)), Offsets(sz, b), base)
  {
    var a, b' := Ascending(b.bits, BITSET_WIDTH), RebasedBatch(b, base);
    forall i | 0 <= i < |a| ensures SameAddress(Offsets(sz, b')[i], Offsets(sz, b)[i] + base) {
      ShiftedWork(b.base, base, a[i] * sz.Of(b.kind));
    }
  }

  /** Rebasing shifts every loaded offset and changes nothing else. */
  lemma {:induction false} RunRebased(
      sz: Sizes, out: seq<Batch>, out': seq<Batch>, base: nat, ix: nat, acc: seq<nat>, acc': seq<nat>)
    requires Rebased(out', out, base) && Shifted(acc', acc, base)
    ensures ShiftedLoads(Run(sz, out', ix, acc'), Run(sz, out, ix, acc), base)
    decreases |out| - ix
  {
    if ix < |out| {
      var b, b' := out[ix], out'[ix];
      ShiftedOffsets(sz, b, base);
      var o, o' := acc + Offsets(sz, b), acc' + Offsets(sz, b');
      assert Shifted(o', o, base);
      if b.jump != 0 {
        if b.nextExtends { RunRebased(sz, out, out', base, ix + b.jump, o, o'); }
        else { RunRebased(sz, out, out', base, ix + b.jump, [], []); }
      }
    }
  }

  ghost predicate ShiftedRefs(r': seq<Ref>, r: seq<Ref>, base: nat)
  {
    |r'| == |r| && forall m :: 0 <= m < |r| ==> ShiftedRef(r'[m], r[m], base)
  }

  predicate ShiftedRef(r': Ref, r: Ref, base: nat)
  {
    r'.kind == r.kind && r'.func == r.func && SameAddress(r'.offset, r.offset + base)
  }

  lemma {:induction false} RefsRebased(l': seq<Loaded>, l: seq<Loaded>, base: nat)
    requires ShiftedLoads(l', l, base)
    ensures ShiftedRefs(Refs(l'), Refs(l), base)
  {
    if l != [] {
      var n := |l| - 1;
      RefsRebased(l'[..n], l[..n], base);
      assert ShiftedLoad(l'[n], l[n], base);
      RefsJoin(Refs(l'[..n]), Refs(l[..n]), l'[n], l[n], base);
    }
  }

  lemma RefsJoin(a': seq<Ref>, a: seq<Ref>, l': Loaded, l: Loaded, base: nat)
    requires ShiftedRefs(a', a, base) && ShiftedLoad(l', l, base)
    ensures ShiftedRefs(a' + RefsIn(l'), a + RefsIn(l), base)
  {
  }

  // ---------------------------------------------------------------- the plan as uploaded

  /** Every block's works are those of its channel, in order, each at its place behind `base`. */
  ghost predicate Addressed(sz: Sizes, out: seq<Batch>, nChannels: nat, items: seq<Item>, base: nat)
  {
    var order := Ascending(Mask(items, |items|), nChannels);
    forall b: nat :: b < |order| ==>
      BlockAddressed(Refs(Run(sz, out, b, [])), items, Given(items, |items|, order[b]), base)
  }

  ghost predicate BlockAddressed(refs: seq<Ref>, items: seq<Item>, given: seq<nat>, base: nat)
  {
    |refs| == |given| && forall m :: 0 <= m < |given| ==> RefAddressed(refs[m], items, given[m], base)
  }

  predicate RefAddressed(r: Ref, items: seq<Item>, i: nat, base: nat)
  {
    i < |items| && r.kind == items[i].kind && r.func == items[i].func &&
      SameAddress(r.offset, base + CHUNK * ChunksBefore(items, i))
  }

  /** Placement and rebasing of the batches. */
  method PlaceBatches(sz: Sizes, nChannels: nat, items: seq<Item>) returns (out: seq<Batch>)
    requires ItemsOk(sz, items)
    ensures Addressed(sz, out, nChannels, items, 0)
  {
    ghost var order := Ascending(Mask(items, |items|), nChannels);
    var queues := BuildPlan(sz, nChannels, items);
    forall b | 0 <= b < |queues| ensures Closed(queues[b]) && NoJumps(queues[b]) {
      MaskMember(Mask(items, |items|), nChannels, b);
      MaskIff(items, |items|, order[b]);
      WorksAreGiven(items, |items|, order[b]);
      assert QueueAt(sz, queues[b], items, order[b]);
    }
    out := FinishPlan(queues, sz);
    forall b: nat | b < |order|
      ensures BlockAddressed(Refs(Run(sz, out, b, [])), items, Given(items, |items|, order[b]), 0)
    {
      assert QueueAt(sz, queues[b], items, order[b]);
      WorksAreGiven(items, |items|, order[b]);
    }
  }

  lemma {:induction false} MaskMember(mask: set<nat>, n: nat, b: nat)
    requires b < |Ascending(mask, n)|
    ensures Ascending(mask, n)[b] in mask
  {
    if 0 < n && b < |Ascending(mask, n - 1)| { MaskMember(mask, n - 1, b); }
  }

  lemma AddressedRebased(sz: Sizes, out: seq<Batch>, out': seq<Batch>, nChannels: nat, items: seq<Item>, base: nat)
    requires Addressed(sz, out, nChannels, items, 0) && Rebased(out', out, base)
    ensures Addressed(sz, out', nChannels, items, base)
  {
    var order := Ascending(Mask(items, |items|), nChannels);
    forall b: nat | b < |order|
      ensures BlockAddressed(Refs(Run(sz, out', b, [])), items, Given(items, |items|, order[b]), base)
    {
      RunRebased(sz, out, out', base, b, [], []);
      RefsRebased(Run(sz, out', b, []), Run(sz, out, b, []), base);
      BlockRebased(Refs(Run(sz, out', b, [])), Refs(Run(sz, out, b, [])), items, Given(items, |items|, order[b]), base);
    }
  }

  lemma BlockRebased(r': seq<Ref>, r: seq<Ref>, items: seq<Item>, given: seq<nat>, base: nat)
    requires BlockAddressed(r, items, given, 0) && ShiftedRefs(r', r, base)
    ensures BlockAddressed(r', items, given, base)
  {
    forall m | 0 <= m < |given| ensures RefAddressed(r'[m], items, given[m], base) {
      assert RefAddressed(r[m], items, given[m], 0) && ShiftedRef(r'[m], r[m], base);
      ShiftedTwice(r'[m].offset, r[m].offset, base, CHUNK * ChunksBefore(items, given[m]));
    }
  }

  lemma ShiftedTwice(x': nat, x: nat, base: nat, y: nat)
    requires SameAddress(x', x + base) && SameAddress(x, y)
    ensures SameAddress(x', base + y)
  {
    ModAdd(x, base, TWO_TO_32);
    ModAdd(y, base, TWO_TO_32);
  }

  // ---------------------------------------------------------------- what the device reads

  /** The device reads `v` at a 32-bit address, masked by `modulus - 1`. */
  predicate Holds(mem: seq<int>, modulus: nat, address: nat, v: int)
  {
    0 < modulus && var w := address % TWO_TO_32 % modulus / CHUNK; w < |mem| && mem[w] == v
  }

  /** A loaded work is the item, word by word. */
  ghost predicate Delivers(mem: seq<int>, modulus: nat, r: Ref, item: Item)
  {
    && r.kind == item.kind && r.func == item.func
    && forall j: nat :: j < |item.chunks| ==> Holds(mem, modulus, r.offset + CHUNK * j, item.chunks[j])
  }

  /** Every block loads the works given to its channel, in order. */
  ghost predicate PlanReads(mem: seq<int>, modulus: nat, sz: Sizes, out: seq<Batch>, nChannels: nat, items: seq<Item>)
  {
    var order := Ascending(Mask(items, |items|), nChannels);
    forall b: nat :: b < |order| ==>
      BlockReads(mem, modulus, Refs(Run(sz, out, b, [])), items, Given(items, |items|, order[b]), 0)
  }

  /** The works from place `low` of the plan on are as they were given. */
  ghost predicate BlockReads(mem: seq<int>, modulus: nat, refs: seq<Ref>, items: seq<Item>, given: seq<nat>, low: nat)
  {
    |refs| == |given| && forall m :: 0 <= m < |given| ==> RefReads(mem, modulus, refs[m], items, given[m], low)
  }

  ghost predicate RefReads(mem: seq<int>, modulus: nat, r: Ref, items: seq<Item>, i: nat, low: nat)
  {
    i < |items| && (low <= ChunksBefore(items, i) ==> Delivers(mem, modulus, r, items[i]))
  }

  lemma ChunkAddress(r: nat, base: nat, before: nat, j: nat)
    requires SameAddress(r, base + CHUNK * before)
    ensures SameAddress(r + CHUNK * j, base + CHUNK * (before + j))
  {
    ModAdd(r, CHUNK * j, TWO_TO_32);
    ModAdd(base + CHUNK * before, CHUNK * j, TWO_TO_32);
  }

  /** The plan's chunks were uploaded as number `n` and following. */
  ghost predicate UploadedAt(written: seq<int>, n: nat, items: seq<Item>)
  {
    n + ChunksBefore(items, |items|) <= |written|
    && written[n..n + ChunksBefore(items, |items|)] == AllChunks(items, |items|)
  }

  /** Word `x` behind position `n` of the FIFO. */
  lemma FifoHolds(queue: WorkQueue, n: nat, x: nat, address: nat)
    requires queue.Valid() && queue.released <= n + x < |queue.written|
    requires SameAddress(address, Wrapped(n) + CHUNK * x)
    ensures Holds(queue.buf, queue.bytes, address, queue.written[n + x])
  {
    ghost var m, q := SizeFacts(queue.bytes);
    queue.DeviceReads(n, x);
  }

  /** A work in the FIFO is read as it was given until it is released. */
  lemma FifoDelivers(queue: WorkQueue, n: nat, items: seq<Item>, i: nat, r: Ref)
    requires queue.Valid() && UploadedAt(queue.written, n, items) && RefAddressed(r, items, i, Wrapped(n))
    requires queue.released <= n + ChunksBefore(items, i)
    ensures Delivers(queue.buf, queue.bytes, r, items[i])
  {
    var before, total := ChunksBefore(items, i), ChunksBefore(items, |items|);
    forall j: nat | j < |items[i].chunks|
      ensures Holds(queue.buf, queue.bytes, r.offset + CHUNK * j, items[i].chunks[j])
    {
      ChunkPlace(items, |items|, i, j);
      ChunkAddress(r.offset, Wrapped(n), before, j);
      FifoHolds(queue, n, before + j, r.offset + CHUNK * j);
      assert queue.written[n..n + total][before + j] == queue.written[n + before + j];
    }
  }

  /**
   * In every later state of the FIFO: the n-th work that a block loads is the n-th work given to
   * its channel, as long as that work is not released.
   */
  lemma FifoReads(queue: WorkQueue, n: nat, sz: Sizes, out: seq<Batch>, nChannels: nat, items: seq<Item>, b: nat)
    requires queue.Valid() && UploadedAt(queue.written, n, items)
    requires Addressed(sz, out, nChannels, items, Wrapped(n)) && b < |Ascending(Mask(items, |items|), nChannels)|
    ensures var given := Given(items, |items|, Ascending(Mask(items, |items|), nChannels)[b]);
      BlockReads(queue.buf, queue.bytes, Refs(Run(sz, out, b, [])), items, given,
        if n < queue.released then queue.released - n else 0)
  {
    var given, low := Given(items, |items|, Ascending(Mask(items, |items|), nChannels)[b]),
      if n < queue.released then queue.released - n else 0;
    var refs := Refs(Run(sz, out, b, []));
    assert BlockAddressed(refs, items, given, Wrapped(n));
    forall m | 0 <= m < |given| ensures RefReads(queue.buf, queue.bytes, refs[m], items, given[m], low) {
      assert RefAddressed(refs[m], items, given[m], Wrapped(n));
      if low <= ChunksBefore(items, given[m]) { FifoDelivers(queue, n, items, given[m], refs[m]); }
    }
  }

  /** Work in the kernel arguments or in a buffer of the plan's own, from word `start` on. */
  lemma LinearReads(mem: seq<int>, start: nat, sz: Sizes, out: seq<Batch>, nChannels: nat, items: seq<Item>)
    requires UploadedAt(mem, start, items) && CHUNK * |mem| < TWO_TO_32
    requires Addressed(sz, out, nChannels, items, CHUNK * start)
    ensures PlanReads(mem, TWO_TO_32, sz, out, nChannels, items)
  {
    var order := Ascending(Mask(items, |items|), nChannels);
    forall b: nat | b < |order|
      ensures BlockReads(mem, TWO_TO_32, Refs(Run(sz, out, b, [])), items, Given(items, |items|, order[b]), 0)
    {
      var refs, given := Refs(Run(sz, out, b, [])), Given(items, |items|, order[b]);
      assert BlockAddressed(refs, items, given, CHUNK * start);
      forall m | 0 <= m < |given| ensures RefReads(mem, TWO_TO_32, refs[m], items, given[m], 0) {
        assert RefAddressed(refs[m], items, given[m], CHUNK * start);
        LinearDelivers(mem, start, items, given[m], refs[m]);
      }
    }
  }

  lemma LinearWord(a: nat, w: nat)
    requires SameAddress(a, CHUNK * w) && CHUNK * w < TWO_TO_32
    ensures a % TWO_TO_32 % TWO_TO_32 / CHUNK == w
  {
  }

  lemma LinearDelivers(mem: seq<int>, start: nat, items: seq<Item>, i: nat, r: Ref)
    requires UploadedAt(mem, start, items) && CHUNK * |mem| < TWO_TO_32 && RefAddressed(r, items, i, CHUNK * start)
    ensures Delivers(mem, TWO_TO_32, r, items[i])
  {
    var before, total := ChunksBefore(items, i), ChunksBefore(items, |items|);
    forall j: nat | j < |items[i].chunks| ensures Holds(mem, TWO_TO_32, r.offset + CHUNK * j, items[i].chunks[j]) {
      ChunkPlace(items, |items|, i, j);
      ChunkAddress(r.offset, CHUNK * start, before, j);
      LinearWord(r.offset + CHUNK * j, start + before + j);
      assert mem[start..start + total][before + j] == mem[start + before + j];
    }
  }

  /** The copy loop when the buffer does not wrap around. */
  method CopyLinear(mem: array<int>, start: nat, work: seq<int>)
    requires start + |work| <= mem.Length && CHUNK * mem.Length < TWO_TO_32
    modifies mem
    ensures mem[..] == old(mem[..start]) + work + old(mem[start + |work|..])
  {
    var cursor := CHUNK * start;
    for i := 0 to |work|
      invariant cursor == CHUNK * (start + i)
      invariant forall k :: 0 <= k < mem.Length ==>
        mem[k] == if start <= k < start + i then work[k - start] else old(mem[k])
    {
      mem[cursor / CHUNK] := work[i];
      cursor := cursor + CHUNK;
    }
  }

  /**
   * uploadWork: the batches are rebased and the works copied.  `header` is the size of the fixed
   * kernel arguments in words, `mem` what the device then reads through the mask `modulus - 1`.
   */
  method UploadWork(
      queue: WorkQueue, persistent: bool, header: nat, workArgsBytes: nat, sz: Sizes, nChannels: nat, items: seq<Item>,
      placed: seq<Batch>)
    returns (ok: bool, out: seq<Batch>, mem: seq<int>, modulus: nat, storage: Storage)
    requires queue.Valid() && ItemsOk(sz, items) && Addressed(sz, placed, nChannels, items, 0)
    requires workArgsBytes < TWO_TO_32
    requires var workBytes := CHUNK * ChunksBefore(items, |items|);
      TestBudget(BudgetOf(persistent, CHUNK * header, workArgsBytes, queue.bytes), |placed|, workBytes)
    modifies queue
    ensures queue.Valid() && (ok ==> PlanReads(mem, modulus, sz, out, nChannels, items))
    ensures var workBytes := CHUNK * ChunksBefore(items, |items|);
      storage == StorageOf(persistent, CHUNK * header, workArgsBytes, |placed|, workBytes)
    ensures storage.Fifo? && ok ==>
      && mem == queue.buf && modulus == queue.bytes
      && Addressed(sz, out, nChannels, items, Wrapped(|old(queue.written)|))
      && queue.written == old(queue.written) + AllChunks(items, |items|)
    ensures !storage.Fifo? || !ok ==> queue.written == old(queue.written)
    ensures ok <==> storage.Fifo? ==>
      |old(queue.written)| + ChunksBefore(items, |items|) - queue.recorded <= |queue.buf|
  {
    var work := AllChunks(items, |items|);
    ok := true;
    PlanWithinBudget(persistent, CHUNK * header, workArgsBytes, queue.bytes, |placed|, |placed|, CHUNK * |work|);
    storage := StorageOf(persistent, CHUNK * header, workArgsBytes, |placed|, CHUNK * |work|);
    if storage.Fifo? {
      var base;
      ghost var n := |queue.written|;
      ok, base := queue.Upload(work);
      mem, modulus := queue.buf, queue.bytes;
      out := Rebase(placed, base);
      AddressedRebased(sz, placed, out, nChannels, items, base);
      if ok { FreshReads(queue, n, sz, out, nChannels, items); }
    } else {
      var start := if storage.Args? then header + |placed| else 0;
      var buffer := new int[start + |work|];
      CopyLinear(buffer, start, work);
      mem, modulus := buffer[..], TWO_TO_32;
      out := Rebase(placed, CHUNK * start);
      AddressedRebased(sz, placed, out, nChannels, items, CHUNK * start);
      LinearReads(mem, start, sz, out, nChannels, items);
    }
  }

  /** Right after the upload nothing of the plan is released. */
  lemma FreshReads(queue: WorkQueue, n: nat, sz: Sizes, out: seq<Batch>, nChannels: nat, items: seq<Item>)
    requires queue.Valid() && UploadedAt(queue.written, n, items) && queue.released <= n
    requires Addressed(sz, out, nChannels, items, Wrapped(n))
    ensures PlanReads(queue.buf, queue.bytes, sz, out, nChannels, items)
  {
    forall b: nat | b < |Ascending(Mask(items, |items|), nChannels)|
      ensures BlockReads(queue.buf, queue.bytes, Refs(Run(sz, out, b, [])), items,
                Given(items, |items|, Ascending(Mask(items, |items|), nChannels)[b]), 0)
    {
      FifoReads(queue, n, sz, out, nChannels, items, b);
    }
  }
}
