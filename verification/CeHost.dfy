/**
 * The host side of copy-engine synchronisation (nccl/src/ce_coll.cc): how `ncclMemOpSync` turns
 * its counters into the operations of one sync, how many syncs a collective issues, and which
 * script the device executes when collectives are run directly, captured in graphs, and graphs
 * are launched.  The sequence number and the choice of array advance with every prepared sync, at
 * capture and not at launch.
 */
module CeHost {
  import opened Arith
  import opened CeSync
  import opened CeSyncExact

  // ---------------------------------------------------------------- the operations of one sync

  /** Stream memory operations; `Multicast` stands for the writes of a rank's flag on all ranks. */
  datatype MemOp =
    | Write(cell: Cell, value: nat)
    | Wait(cell: Cell, value: nat)
    | Multicast(complete: bool, src: nat, value: nat)

  /** What a rank does in a phase of a sync at rank `i`. */
  function OpAt(sync: Sync, multicast: bool, r: nat, phase: Phase, i: nat): seq<MemOp>
  {
    match phase
    case Writing => if i != r || multicast then [Write(Cell(sync.complete, i, r), sync.value)] else []
    case Waiting => if i != r then [Wait(Cell(sync.complete, r, i), sync.value)] else []
    case Resetting => if sync.reset then [Write(Cell(sync.complete, r, i), 0)] else []
  }

  function PhaseOps(sync: Sync, multicast: bool, r: nat, phase: Phase, n: nat): seq<MemOp>
  {
    if n == 0 then [] else PhaseOps(sync, multicast, r, phase, n - 1) + OpAt(sync, multicast, r, phase, n - 1)
  }

  /** All operations of a sync, in stream order. */
  function SyncOps(sync: Sync, multicast: bool, r: nat, n: nat): seq<MemOp>
  {
    (if multicast then [Multicast(sync.complete, r, sync.value)] else PhaseOps(sync, multicast, r, Writing, n)) +
    (PhaseOps(sync, multicast, r, Waiting, n) + PhaseOps(sync, multicast, r, Resetting, n))
  }

  predicate CanRun(flags: Cell -> int, op: MemOp)
  {
    op.Wait? ==> flags(op.cell) == op.value
  }

  function Execute(flags: Cell -> int, op: MemOp): Cell -> int
  {
    if op.Write? then Upd(flags, op.cell, op.value) else flags
  }

  /** The state machine executes exactly these operations, in this order. */
  lemma StepExecutes(cf: Config, s: State, r: nat)
    requires Sized(cf, s) && r < cf.n && !Done(cf, s, r) && s.ranks[r].i < cf.n
    ensures var p := s.ranks[r]; var ops := OpAt(cf.script[p.k], cf.multicast, r, p.phase, p.i);
      && |ops| <= 1 && (Enabled(cf, s, r) <==> (ops != [] ==> CanRun(s.flags, ops[0])))
      && (Enabled(cf, s, r) ==> Step(cf, s, r).flags == if ops == [] then s.flags else Execute(s.flags, ops[0]))
  {
  }

  /** The sync prepared by call number `call`. */
  function SyncOf(call: nat, capturing: bool): Sync
  {
    Sync(if capturing then GRAPH_SYNC_VALUE else (call + 1) % TWO_TO_32, capturing, call % 2 == 1)
  }

  /** The copy-engine state of one rank: `calls` syncs have been prepared. */
  class CeColl {
    const n: nat
    const rank: nat
    const multicast: bool
    var ceSeqNum: nat
    var useCompletePtr: bool
    ghost var calls: nat

    ghost predicate Valid()
      reads this
    {
      rank < n && ceSeqNum == calls % TWO_TO_32 && useCompletePtr == (calls % 2 == 1)
    }

    constructor (n: nat, rank: nat, multicast: bool)
      requires rank < n
      ensures Valid() && calls == 0 && this.n == n && this.rank == rank && this.multicast == multicast
    {
      this.n, this.rank, this.multicast := n, rank, multicast;
      ceSeqNum, useCompletePtr, calls := 0, false, 0;
    }

    /** ncclMemOpSync with its preparation; the operations fit into the space allocated for them. */
    method MemOpSync(capturing: bool) returns (ops: seq<MemOp>)
      requires Valid()
      modifies this
      ensures Valid() && calls == old(calls) + 1
      ensures ops == SyncOps(SyncOf(old(calls), capturing), multicast, rank, n)
      ensures |ops| <= if multicast then 2 * n else 3 * n
    {
      NextNumbers(calls);
      ghost var sync := SyncOf(calls, capturing);
      ceSeqNum := (ceSeqNum + 1) % TWO_TO_32;
      var value := if capturing then GRAPH_SYNC_VALUE else ceSeqNum;
      var writes := [Multicast(useCompletePtr, rank, value)];
      if !multicast { writes := PrepWrites(n, rank, useCompletePtr, value, sync); }
      var waits := PrepWaits(n, rank, useCompletePtr, value, sync, multicast);
      var resets := PrepResets(n, rank, useCompletePtr, capturing, sync, multicast);
      ops := writes + (waits + resets);
      useCompletePtr := !useCompletePtr;
      calls := calls + 1;
    }
  }

  lemma NextNumbers(call: nat)
    ensures (call % TWO_TO_32 + 1) % TWO_TO_32 == (call + 1) % TWO_TO_32
    ensures ((call + 1) % 2 == 1) == !(call % 2 == 1)
  {
    var q, r := call / TWO_TO_32, call % TWO_TO_32;
    assert call == TWO_TO_32 * q + r;
    if r + 1 < TWO_TO_32 {
      DivModUnique(call + 1, TWO_TO_32, q, r + 1);
    } else {
      DivModUnique(call + 1, TWO_TO_32, q + 1, 0);
    }
  }

  /** The flag writes of the unicast variant. */
  method PrepWrites(n: nat, rank: nat, complete: bool, value: nat, ghost sync: Sync) returns (ops: seq<MemOp>)
    requires rank < n && complete == sync.complete && value == sync.value
    ensures ops == PhaseOps(sync, false, rank, Writing, n) && |ops| < n
  {
    ops := [];
    for i := 0 to n
      invariant ops == PhaseOps(sync, false, rank, Writing, i) && |ops| <= i && (rank < i ==> |ops| < i)
    {
      if i != rank { ops := ops + [Write(Cell(complete, i, rank), value)]; }
    }
  }

  /** The waits for all other ranks. */
  method PrepWaits(n: nat, rank: nat, complete: bool, value: nat, ghost sync: Sync, ghost multicast: bool)
    returns (ops: seq<MemOp>)
    requires rank < n && complete == sync.complete && value == sync.value
    ensures ops == PhaseOps(sync, multicast, rank, Waiting, n) && |ops| < n
  {
    ops := [];
    for i := 0 to n
      invariant ops == PhaseOps(sync, multicast, rank, Waiting, i) && |ops| <= i && (rank < i ==> |ops| < i)
    {
      if i != rank { ops := ops + [Wait(Cell(complete, rank, i), value)]; }
    }
  }

  /** The resets, during capture only. */
  method PrepResets(n: nat, rank: nat, complete: bool, capturing: bool, ghost sync: Sync, ghost multicast: bool)
    returns (ops: seq<MemOp>)
    requires complete == sync.complete && capturing == sync.reset
    ensures ops == PhaseOps(sync, multicast, rank, Resetting, n) && |ops| <= n
  {
    ops := [];
    if capturing {
      for i := 0 to n
        invariant ops == PhaseOps(sync, multicast, rank, Resetting, i) && |ops| <= i
      {
        ops := ops + [Write(Cell(complete, rank, i), 0)];
      }
    } else {
      NoResets(sync, multicast, rank, n);
    }
  }

  lemma {:induction false} NoResets(sync: Sync, multicast: bool, r: nat, n: nat)
    requires !sync.reset
    ensures PhaseOps(sync, multicast, r, Resetting, n) == []
  {
    if 0 < n { NoResets(sync, multicast, r, n - 1); }
  }

  // ---------------------------------------------------------------- syncs of a collective

  const INTRA_BATCH_SYNC_FREQ: nat := 8
  const INTRA_BATCH_SYNC_MSG_THRESHOLD: nat := 512 * 1024 * 1024

  /** Syncs of a collective with `numOps` copies: one before, one after, and some in between if it is large. */
  function CollectiveSyncs(numOps: nat, chunkBytes: nat): nat
  {
    2 + if Batched(numOps, chunkBytes) then (numOps - 1) / INTRA_BATCH_SYNC_FREQ else 0
  }

  /** The collective is large enough for syncs between its copies. */
  predicate Batched(numOps: nat, chunkBytes: nat)
  {
    numOps > INTRA_BATCH_SYNC_FREQ && chunkBytes * numOps >= INTRA_BATCH_SYNC_MSG_THRESHOLD
  }

  /** The copy loop of ncclCeLaunchBatchOps: the number of syncs it issues. */
  method LaunchBatchOps(numOps: nat, intraBatchSync: bool) returns (syncs: nat)
    ensures syncs == if intraBatchSync && 0 < numOps then (numOps - 1) / INTRA_BATCH_SYNC_FREQ else 0
  {
    syncs := 0;
    for i := 0 to numOps
      invariant syncs == if !intraBatchSync || i == 0 then 0
                         else (if i < numOps then i else i - 1) / INTRA_BATCH_SYNC_FREQ
    {
      if intraBatchSync && (i + 1) % INTRA_BATCH_SYNC_FREQ == 0 && i + 1 < numOps { syncs := syncs + 1; }
    }
  }

  /** A large out-of-place all-gather on 16, 32 or 64 ranks issues an odd number of syncs. */
  lemma OddCounts(chunkBytes: nat)
    requires chunkBytes * 16 >= INTRA_BATCH_SYNC_MSG_THRESHOLD
    ensures CollectiveSyncs(16, chunkBytes) == 3 && CollectiveSyncs(32, chunkBytes) == 5
    ensures CollectiveSyncs(64, chunkBytes) == 9
  {
  }

  // ---------------------------------------------------------------- programs

  /** A collective run directly, a collective captured as a graph of its own, or the launch of a graph. */
  datatype HostOp = Eager(syncs: nat) | Capture(syncs: nat) | Launch(graph: nat)

  /** Syncs prepared so far, the graphs, and what the device has been given to execute. */
  datatype Host = Host(calls: nat, graphs: seq<Script>, executed: Script)

  /** The syncs prepared by `m` calls from number `call` on. */
  function Block(call: nat, m: nat, capturing: bool): (b: Script)
    ensures |b| == m && forall i :: 0 <= i < m ==> b[i] == SyncOf(call + i, capturing)
  {
    seq(m, i requires 0 <= i < m => SyncOf(call + i, capturing))
  }

  function Do(h: Host, op: HostOp): Host
  {
    match op
    case Eager(m) => h.(calls := h.calls + m, executed := h.executed + Block(h.calls, m, false))
    case Capture(m) => h.(calls := h.calls + m, graphs := h.graphs + [Block(h.calls, m, true)])
    case Launch(g) => if g < |h.graphs| then h.(executed := h.executed + h.graphs[g]) else h
  }

  function Play(h: Host, ops: seq<HostOp>): Host
    decreases |ops|
  {
    if ops == [] then h else Play(Do(h, ops[0]), ops[1..])
  }

  const START: Host := Host(0, [], [])

  /** A program works in every run iff its script is safe, whatever it captures and launches. */
  lemma ProgramSoundIff(ops: seq<HostOp>, n: nat, multicast: bool, s: State)
    requires 2 <= n && Initial(Config(n, Play(START, ops).executed, multicast), s)
    ensures AlwaysSound(Config(n, Play(START, ops).executed, multicast), s) <==> Safe(Play(START, ops).executed)
  {
    SoundIffSafe(Config(n, Play(START, ops).executed, multicast), s);
  }

  // ---------------------------------------------------------------- kinds of programs

  /** Every call is executed once, in order, captured or not. */
  predicate InOrder(sc: Script, captured: nat -> bool)
  {
    forall k: nat :: k < |sc| ==> sc[k] == SyncOf(k, captured(k))
  }

  /** Sync `k+2` cannot mistake what sync `k` left for its own value. */
  predicate NoClash(captured: nat -> bool, k: nat)
  {
    && (captured(k + 2) && !captured(k) ==> (k + 1) % TWO_TO_32 != GRAPH_SYNC_VALUE)
    && (!captured(k + 2) && captured(k) ==> (k + 3) % TWO_TO_32 != 0)
  }

  lemma Parity(k: nat)
    requires 2 <= k
    ensures (k - 1) % 2 != k % 2 && (k - 2) % 2 == k % 2
  {
  }

  lemma InOrderStale(sc: Script, captured: nat -> bool, k: nat)
    requires InOrder(sc, captured) && k < |sc|
    ensures Alternates(sc, k)
    ensures Stale(sc, k) == if k < 2 || captured(k - 2) then 0 else (k - 1) % TWO_TO_32
  {
    assert sc[k] == SyncOf(k, captured(k));
    if 2 <= k {
      var i, j := k - 1, k - 2;
      assert sc[i] == SyncOf(i, captured(i)) && sc[j] == SyncOf(j, captured(j));
      Parity(k);
      assert Latest(sc, sc[k].complete, i) == j && Latest(sc, sc[k].complete, k) == j;
    } else if k == 1 {
      assert sc[0] == SyncOf(0, captured(0));
      assert Latest(sc, sc[k].complete, 1) == Latest(sc, sc[k].complete, 0);
    }
  }

  lemma InOrderSafeAt(sc: Script, captured: nat -> bool, k: nat)
    requires InOrder(sc, captured) && k < |sc|
    ensures SafeAt(sc, k) <==> k < 2 || NoClash(captured, k - 2)
  {
    InOrderStale(sc, captured, k);
    assert sc[k] == SyncOf(k, captured(k)) && (k - 1) % TWO_TO_32 != (k + 1) % TWO_TO_32;
  }

  /** Captured syncs that run once and in call order, mixed with uncaptured ones. */
  lemma MixedModes(sc: Script, captured: nat -> bool)
    requires InOrder(sc, captured)
    ensures Safe(sc) <==> forall k: nat :: k + 2 < |sc| ==> NoClash(captured, k)
  {
    forall k: nat | k + 2 < |sc| ensures SafeAt(sc, k + 2) <==> NoClash(captured, k) {
      InOrderSafeAt(sc, captured, k + 2);
    }
    forall k: nat | k < |sc| ensures SafeAt(sc, k) <==> k < 2 || NoClash(captured, k - 2) {
      InOrderSafeAt(sc, captured, k);
    }
    if Safe(sc) {
      forall k: nat | k + 2 < |sc| ensures NoClash(captured, k) { assert SafeAt(sc, k + 2); }
    }
  }

  /** Collectives run directly are always safe, also across the wrap-around of the sequence number. */
  lemma EagerSafe(sc: Script, captured: nat -> bool)
    requires InOrder(sc, captured) && forall k: nat :: !captured(k)
    ensures Safe(sc)
  {
    MixedModes(sc, captured);
  }

  lemma {:induction false} EagerProgram(h: Host, ops: seq<HostOp>)
    requires (forall i :: 0 <= i < |ops| ==> ops[i].Eager?) && |h.executed| == h.calls
    requires InOrder(h.executed, (k: nat) => false)
    ensures InOrder(Play(h, ops).executed, (k: nat) => false)
    decreases |ops|
  {
    if ops != [] {
      var h' := Do(h, ops[0]);
      forall k: nat | k < |h'.executed| ensures h'.executed[k] == SyncOf(k, false) { }
      EagerProgram(h', ops[1..]);
    }
  }

  /** A program without graphs works in every run. */
  lemma EagerProgramSound(ops: seq<HostOp>, n: nat, multicast: bool, s: State)
    requires forall i :: 0 <= i < |ops| ==> ops[i].Eager?
    requires 2 <= n && Initial(Config(n, Play(START, ops).executed, multicast), s)
    ensures AlwaysSound(Config(n, Play(START, ops).executed, multicast), s)
  {
    EagerProgram(START, ops);
    EagerSafe(Play(START, ops).executed, (k: nat) => false);
    ProgramSoundIff(ops, n, multicast, s);
  }

  /** Only captured syncs, in any order: safe iff they alternate. */
  lemma CapturedSafeIff(sc: Script)
    requires forall k :: 0 <= k < |sc| ==> sc[k].reset && sc[k].value == GRAPH_SYNC_VALUE
    ensures Safe(sc) <==> forall k: nat :: k < |sc| ==> Alternates(sc, k)
  {
    forall k: nat | k < |sc| ensures SafeAt(sc, k) <==> Alternates(sc, k) { }
    if Safe(sc) {
      forall k: nat | k < |sc| ensures Alternates(sc, k) { assert SafeAt(sc, k); }
    }
  }

  /** A graph launched `times` times. */
  function Repeated(g: Script, times: nat): Script { if times == 0 then [] else Repeated(g, times - 1) + g }

  lemma {:induction false} RepeatedAt(g: Script, times: nat, t: nat, i: nat)
    requires t < times && i < |g|
    ensures |Repeated(g, times)| == Cells(times, |g|) && Cells(t, |g|) + i < Cells(times, |g|)
    ensures Repeated(g, times)[Cells(t, |g|) + i] == g[i]
  {
    RepeatedLength(g, times - 1);
    if t < times - 1 { RepeatedAt(g, times - 1, t, i); }
  }

  lemma {:induction false} RepeatedLength(g: Script, times: nat)
    ensures |Repeated(g, times)| == Cells(times, |g|)
  {
    if 0 < times { RepeatedLength(g, times - 1); }
  }

  /** Every position lies in one of the launches. */
  lemma {:induction false} LaunchOf(g: Script, times: nat, k: nat) returns (t: nat, i: nat)
    requires k < Cells(times, |g|)
    ensures t < times && i < |g| && k == Cells(t, |g|) + i
  {
    if Cells(times - 1, |g|) <= k {
      t, i := times - 1, k - Cells(times - 1, |g|);
    } else {
      t, i := LaunchOf(g, times - 1, k);
    }
  }

  lemma ReplayedSync(call: nat, m: nat, times: nat, g: Script, sc: Script, k: nat)
    requires g == Block(call, m, true) && sc == Repeated(g, times) && k < |sc|
    ensures sc[k].reset && sc[k].value == GRAPH_SYNC_VALUE
    ensures m % 2 == 0 || times < 2 ==> Alternates(sc, k)
  {
    RepeatedLength(g, times);
    var t, i := LaunchOf(g, times, k);
    RepeatedAt(g, times, t, i);
    if 0 < i { RepeatedAt(g, times, t, i - 1); } else if 0 < t { RepeatedAt(g, times, t - 1, m - 1); }
  }

  /** The seam between two launches of an odd graph. */
  lemma OddSeam(call: nat, m: nat, times: nat, g: Script, sc: Script)
    requires g == Block(call, m, true) && sc == Repeated(g, times) && m % 2 == 1 && 2 <= times
    ensures m < |sc| && !Alternates(sc, m)
  {
    RepeatedAt(g, times, 0, m - 1);
    RepeatedAt(g, times, 1, 0);
    assert Cells(1, m) == m;
    assert sc[m - 1] == g[m - 1] && sc[m] == g[0];
  }

  /** One graph launched again and again is safe iff it has an even number of syncs or runs only once. */
  lemma ReplaySafeIff(call: nat, m: nat, times: nat)
    ensures Safe(Repeated(Block(call, m, true), times)) <==> m % 2 == 0 || times < 2
  {
    var g := Block(call, m, true);
    var sc := Repeated(g, times);
    forall k: nat | k < |sc|
      ensures sc[k].reset && sc[k].value == GRAPH_SYNC_VALUE && (m % 2 == 0 || times < 2 ==> Alternates(sc, k)) {
      ReplayedSync(call, m, times, g, sc, k);
    }
    CapturedSafeIff(sc);
    if m % 2 == 1 && 2 <= times { OddSeam(call, m, times, g, sc); }
  }

  function Launches(times: nat): seq<HostOp> { seq(times, _ => Launch(0)) }

  lemma {:induction false} RepeatedFront(g: Script, times: nat)
    ensures g + Repeated(g, times) == Repeated(g, times) + g
  {
    if 0 < times {
      RepeatedFront(g, times - 1);
      assert g + (Repeated(g, times - 1) + g) == (g + Repeated(g, times - 1)) + g;
    }
  }

  lemma {:induction false} LaunchesRepeat(h: Host, times: nat)
    requires h.graphs != []
    ensures Play(h, Launches(times)).executed == h.executed + Repeated(h.graphs[0], times)
    decreases times
  {
    if 0 < times {
      var g, h' := h.graphs[0], Do(h, Launch(0));
      assert Launches(times)[1..] == Launches(times - 1);
      LaunchesRepeat(h', times - 1);
      RepeatedFront(g, times - 1);
      assert h.executed + g + Repeated(g, times - 1) == h.executed + (g + Repeated(g, times - 1));
    }
  }

  /** A graph of `m` syncs captured first and launched `times` times works iff `m` is even or it runs only once. */
  lemma ReplayProgramSoundIff(m: nat, times: nat, n: nat, multicast: bool, s: State)
    requires 2 <= n && Initial(Config(n, Play(START, [Capture(m)] + Launches(times)).executed, multicast), s)
    ensures AlwaysSound(Config(n, Play(START, [Capture(m)] + Launches(times)).executed, multicast), s) <==>
      m % 2 == 0 || times < 2
  {
    var ops := [Capture(m)] + Launches(times);
    var h := Do(START, Capture(m));
    assert ops[0] == Capture(m) && ops[1..] == Launches(times);
    LaunchesRepeat(h, times);
    assert Play(START, ops).executed == Repeated(Block(0, m, true), times);
    ReplaySafeIff(0, m, times);
    ProgramSoundIff(ops, n, multicast, s);
  }

  // ---------------------------------------------------------------- programs that fail

  /** The first collective run directly, then one captured and launched: a captured wait finds the stale 1. */
  lemma FirstCaptureFails(n: nat, multicast: bool, s: State) returns (sched: seq<nat>, t: State)
    requires 2 <= n && Initial(Config(n, Play(START, [Eager(2), Capture(2), Launch(0)]).executed, multicast), s)
    ensures Runs(Config(n, Play(START, [Eager(2), Capture(2), Launch(0)]).executed, multicast), s, sched, t)
    ensures !Barrier(t)
  {
    var cf := Config(n, Play(START, [Eager(2), Capture(2), Launch(0)]).executed, multicast);
    FirstCaptureScript();
    assert Latest(cf.script, false, 2) == Latest(cf.script, false, 1) == 0;
    sched, t := StaleBreaksBarrier(cf, s, 2);
  }

  lemma FirstCaptureScript()
    ensures Play(START, [Eager(2), Capture(2), Launch(0)]).executed ==
      [Sync(1, false, false), Sync(2, false, true), Sync(1, true, false), Sync(1, true, true)]
  {
    var h1 := Do(START, Eager(2));
    var h2 := Do(h1, Capture(2));
    var h3 := Do(h2, Launch(0));
    assert Play(h3, []) == h3 && Play(h2, [Launch(0)]) == h3 && Play(h1, [Capture(2), Launch(0)]) == h3;
  }

  /** A graph of three syncs launched twice: a slow rank erases the flag it waits for next, and all are stuck. */
  lemma OddGraphFails(n: nat, multicast: bool, s: State) returns (sched: seq<nat>, t: State)
    requires 2 <= n && Initial(Config(n, Play(START, [Capture(3), Launch(0), Launch(0)]).executed, multicast), s)
    ensures var cf := Config(n, Play(START, [Capture(3), Launch(0), Launch(0)]).executed, multicast);
      Runs(cf, s, sched, t) && Sized(cf, t) && Deadlock(cf, t)
  {
    var cf := Config(n, Play(START, [Capture(3), Launch(0), Launch(0)]).executed, multicast);
    OddGraphScript();
    assert Latest(cf.script, true, 4) == Latest(cf.script, true, 3) == Latest(cf.script, true, 2) == 1;
    sched, t := EraseDeadlocks(cf, s, 2);
  }

  lemma OddGraphScript()
    ensures Play(START, [Capture(3), Launch(0), Launch(0)]).executed ==
      [Sync(1, true, false), Sync(1, true, true), Sync(1, true, false),
       Sync(1, true, false), Sync(1, true, true), Sync(1, true, false)]
  {
    var h1 := Do(START, Capture(3));
    var h2 := Do(h1, Launch(0));
    var h3 := Do(h2, Launch(0));
    assert Play(h3, []) == h3 && Play(h2, [Launch(0)]) == h3 && Play(h1, [Launch(0), Launch(0)]) == h3;
  }

  /** An even graph, a collective of three syncs, the graph again: the awaited 5 is overwritten by 1. */
  lemma EvenGraphFails(n: nat, multicast: bool, s: State) returns (sched: seq<nat>, t: State)
    requires 2 <= n
    requires Initial(Config(n, Play(START, [Capture(2), Launch(0), Eager(3), Launch(0)]).executed, multicast), s)
    ensures var cf := Config(n, Play(START, [Capture(2), Launch(0), Eager(3), Launch(0)]).executed, multicast);
      Runs(cf, s, sched, t) && Sized(cf, t) && MissedWait(cf, t, 1) && Deadlock(cf, t)
  {
    var cf := Config(n, Play(START, [Capture(2), Launch(0), Eager(3), Launch(0)]).executed, multicast);
    EvenGraphScript();
    sched, t := OverwriteDeadlocks(cf, s, 4);
  }

  lemma EvenGraphScript()
    ensures Play(START, [Capture(2), Launch(0), Eager(3), Launch(0)]).executed ==
      [Sync(1, true, false), Sync(1, true, true), Sync(3, false, false), Sync(4, false, true), Sync(5, false, false),
       Sync(1, true, false), Sync(1, true, true)]
  {
    var h1 := Do(START, Capture(2));
    var h2 := Do(h1, Launch(0));
    var h3 := Do(h2, Eager(3));
    var h4 := Do(h3, Launch(0));
    assert Play(h4, []) == h4 && Play(h3, [Launch(0)]) == h4 && Play(h2, [Eager(3), Launch(0)]) == h4;
    assert Play(h1, [Launch(0), Eager(3), Launch(0)]) == h4;
  }

  // ---------------------------------------------------------------- ranks that issue different numbers of syncs

  /**
   * Direct collectives number their syncs alike on all ranks, so that a rank with fewer syncs
   * executes a first part of the same script.  Rank `q` issues the first `lens[q]` syncs and stops.
   */
  predicate Within(s: State, lens: seq<nat>)
  {
    |lens| == |s.ranks| &&
    forall q :: 0 <= q < |lens| ==> s.ranks[q].k < lens[q] || s.ranks[q] == Rank(lens[q], Writing, 0)
  }

  predicate Finished(s: State, lens: seq<nat>)
  {
    |lens| == |s.ranks| && forall q :: 0 <= q < |lens| ==> s.ranks[q] == Rank(lens[q], Writing, 0)
  }

  /** A run that ends within these bounds has kept them throughout. */
  lemma WithinBefore(cf: Config, s: State, r: nat, lens: seq<nat>)
    requires Enabled(cf, s, r) && Within(Step(cf, s, r), lens)
    ensures Within(s, lens) && s.ranks[r].k < lens[r]
  {
    var t := Step(cf, s, r);
    assert forall q :: 0 <= q < |lens| && q != r ==> t.ranks[q] == s.ranks[q];
    assert t.ranks[r].k < lens[r] || t.ranks[r] == Rank(lens[r], Writing, 0);
  }

  /** In no run does anybody get past the last sync of the rank that issues fewest. */
  lemma ShortRankBlocks(cf: Config, s: State, sched: seq<nat>, t: State, lens: seq<nat>, r: nat, d: nat)
    requires Safe(cf.script) && Initial(cf, s) && Runs(cf, s, sched, t) && Within(t, lens)
    requires r < |lens| && d < |lens|
    ensures t.ranks[d].k <= lens[r]
  {
    BarrierSafe(cf, s, sched, t);
    assert r != d && lens[r] < t.ranks[d].k ==> Issued(t, r, d, lens[r]);
  }

  ghost predicate CanFinish(cf: Config, s: State, lens: seq<nat>)
  {
    exists sched, t :: Runs(cf, s, sched, t) && Finished(t, lens)
  }

  /** All ranks can finish if and only if they issue the same number of syncs. */
  lemma FinishIff(cf: Config, s: State, lens: seq<nat>)
    requires Safe(cf.script) && Initial(cf, s) && |lens| == cf.n
    requires forall q :: 0 <= q < |lens| ==> lens[q] <= |cf.script|
    ensures CanFinish(cf, s, lens) <==> forall a, b :: 0 <= a < |lens| && 0 <= b < |lens| ==> lens[a] == lens[b]
  {
    if CanFinish(cf, s, lens) {
      var sched, t :| Runs(cf, s, sched, t) && Finished(t, lens);
      forall a: nat, b: nat | a < |lens| && b < |lens| ensures lens[a] == lens[b] {
        ShortRankBlocks(cf, s, sched, t, lens, a, b);
        ShortRankBlocks(cf, s, sched, t, lens, b, a);
      }
    }
    if forall a, b :: 0 <= a < |lens| && 0 <= b < |lens| ==> lens[a] == lens[b] {
      var sched, t := LockStep(cf, s, if lens == [] then 0 else lens[0]);
      assert Runs(cf, s, sched, t) && Finished(t, lens);
    }
  }

  /** Collectives run directly: `longest` is the number of syncs of the rank that issues most. */
  lemma EagerFinishIff(n: nat, multicast: bool, longest: nat, s: State, lens: seq<nat>)
    requires Initial(Config(n, Block(0, longest, false), multicast), s) && |lens| == n
    requires forall q :: 0 <= q < |lens| ==> lens[q] <= longest
    ensures CanFinish(Config(n, Block(0, longest, false), multicast), s, lens) <==>
      forall a, b :: 0 <= a < |lens| && 0 <= b < |lens| ==> lens[a] == lens[b]
  {
    var sc := Block(0, longest, false);
    forall k: nat | k < |sc| ensures sc[k] == SyncOf(k, false) { }
    EagerSafe(sc, (k: nat) => false);
    FinishIff(Config(n, sc, multicast), s, lens);
  }

  /**
   * A rank that gathers in place makes one copy less.  It issues as many syncs as the others
   * unless this takes it below a threshold or saves a batch.
   */
  lemma InPlaceAgreesIff(nRanks: nat, chunkBytes: nat)
    requires 0 < nRanks
    ensures CollectiveSyncs(nRanks, chunkBytes) == CollectiveSyncs(nRanks - 1, chunkBytes) <==>
      !Batched(nRanks, chunkBytes) || (Batched(nRanks - 1, chunkBytes) && nRanks % INTRA_BATCH_SYNC_FREQ != 1)
  {
    MulMono(chunkBytes, nRanks - 1, nRanks);
  }

  /** Rank 0 stops before sync `m`; everybody else issues it and is stuck. */
  lemma ShortRankStuck(cf: Config, s: State, m: nat) returns (sched: seq<nat>, t: State)
    requires Safe(cf.script) && Initial(cf, s) && m < |cf.script|
    ensures Runs(cf, s, sched, t) && Sized(cf, t)
    ensures forall r :: 0 <= r < cf.n ==> t.ranks[r] == if r == 0 then Rank(m, Writing, 0) else Rank(m, Waiting, 0)
    ensures forall r: nat :: 0 < r < cf.n ==> !Done(cf, t, r) && !Enabled(cf, t, r)
  {
    var a, u := LockStep(cf, s, m);
    var b;
    b, t := AllWrite(cf, u, m, if cf.n == 0 then 0 else 1);
    RunsConcat(cf, s, a, u, b, t);
    sched := a + b;
    assert SafeAt(cf.script, m);
    forall r: nat | 0 < r < cf.n ensures !Done(cf, t, r) && !Enabled(cf, t, r) {
      assert CleanPair(cf, u, m, r, 0);
    }
  }

  /** Nine ranks, one of them in place, with chunks of 512 MB / 9: it issues two syncs and the others three. */
  lemma InPlaceStuck(chunkBytes: nat, multicast: bool, s: State) returns (sched: seq<nat>, t: State)
    requires chunkBytes * 9 >= INTRA_BATCH_SYNC_MSG_THRESHOLD
    requires Initial(Config(9, Block(0, CollectiveSyncs(9, chunkBytes), false), multicast), s)
    ensures CollectiveSyncs(8, chunkBytes) == 2 && CollectiveSyncs(9, chunkBytes) == 3
    ensures var cf := Config(9, Block(0, CollectiveSyncs(9, chunkBytes), false), multicast);
      && Runs(cf, s, sched, t) && Sized(cf, t) && t.ranks[0] == Rank(CollectiveSyncs(8, chunkBytes), Writing, 0)
      && forall r: nat :: 0 < r < 9 ==> !Done(cf, t, r) && !Enabled(cf, t, r)
  {
    var sc := Block(0, 3, false);
    forall k: nat | k < |sc| ensures sc[k] == SyncOf(k, false) { }
    EagerSafe(sc, (k: nat) => false);
    sched, t := ShortRankStuck(Config(9, sc, multicast), s, 2);
  }
}
