/**
 * The work FIFO (nccl/src/enqueue.cc: `testBudget`, the storage choice of `finishPlan`,
 * `waitWorkFifoAvailable`, `uploadWork`, `KernelFinishCallback_fn` and the recording in
 * `ncclLaunchFinish`; nccl/src/init.cc for its size).  Produced and consumed positions are
 * 32-bit counters that wrap around; the buffer is addressed by masking them.
 */
module WorkFifo {
  import opened Arith

  /** Work is copied in chunks of 16 bytes. */
  const CHUNK: nat := 16

  // ---------------------------------------------------------------- budget

  datatype Budget = Budget(inArgsBytes: int, outArgsBytes: int)

  const BATCH_SIZE: nat := 16 // sizeof(struct ncclDevWorkBatch)

  function TestBudget(b: Budget, nWorkBatches: nat, workBytes: nat): bool
  {
    var batchBytes := nWorkBatches * BATCH_SIZE;
    batchBytes + workBytes <= b.inArgsBytes || (batchBytes <= b.inArgsBytes && workBytes <= b.outArgsBytes)
  }

  datatype Storage = Args | Fifo | Persistent

  /** The budget of a plan; `argsSize` is the size of the fixed kernel arguments. */
  function BudgetOf(persistent: bool, argsSize: nat, workArgsBytes: nat, fifoBytes: nat): Budget
  {
    Budget(workArgsBytes - argsSize, if persistent then 0x4000_0000 else fifoBytes / 2)
  }

  /** finishPlan's choice; plans captured in a graph are persistent. */
  function StorageOf(persistent: bool, argsSize: nat, workArgsBytes: nat, nWorkBatches: nat, workBytes: nat): Storage
  {
    if argsSize + nWorkBatches * BATCH_SIZE + workBytes <= workArgsBytes then Args
    else if persistent then Persistent
    else Fifo
  }

  /**
   * A plan that passed the budget test, whose batches are at most those budgeted for, has its
   * batches in the kernel arguments and its work there too, in at most half the FIFO, or in at
   * most 2^30 bytes of its own.
   */
  lemma PlanWithinBudget(
      persistent: bool, argsSize: nat, workArgsBytes: nat, fifoBytes: nat, bound: nat, nWorkBatches: nat,
      workBytes: nat)
    requires TestBudget(BudgetOf(persistent, argsSize, workArgsBytes, fifoBytes), bound, workBytes)
    requires nWorkBatches <= bound
    ensures argsSize + nWorkBatches * BATCH_SIZE <= workArgsBytes
    ensures match StorageOf(persistent, argsSize, workArgsBytes, nWorkBatches, workBytes)
      case Args => argsSize + nWorkBatches * BATCH_SIZE + workBytes <= workArgsBytes
      case Fifo => !persistent && workBytes <= fifoBytes / 2
      case Persistent => persistent && workBytes <= 0x4000_0000
  {
  }

  /** The test admits exactly the plans that fit: all in the arguments, or the batches there and the work outside. */
  lemma BudgetIff(
      persistent: bool, argsSize: nat, workArgsBytes: nat, fifoBytes: nat, nWorkBatches: nat, workBytes: nat)
    ensures TestBudget(BudgetOf(persistent, argsSize, workArgsBytes, fifoBytes), nWorkBatches, workBytes) <==>
      argsSize + 16 * nWorkBatches <= workArgsBytes &&
      match StorageOf(persistent, argsSize, workArgsBytes, nWorkBatches, workBytes)
      case Args => argsSize + 16 * nWorkBatches + workBytes <= workArgsBytes
      case Fifo => 2 * workBytes <= fifoBytes
      case Persistent => workBytes <= 0x4000_0000
    ensures match StorageOf(persistent, argsSize, workArgsBytes, nWorkBatches, workBytes)
      case Args => argsSize + 16 * nWorkBatches + workBytes <= workArgsBytes
      case Fifo => !persistent && workArgsBytes < argsSize + 16 * nWorkBatches + workBytes
      case Persistent => persistent && workArgsBytes < argsSize + 16 * nWorkBatches + workBytes
  {
  }

  // ---------------------------------------------------------------- wrapping counters

  /** FIFO sizes: powers of two up to 2^30, and large enough for a chunk. */
  ghost predicate FifoSize(f: nat)
  {
    exists e: nat :: 4 <= e <= 30 && f == Pow2(e)
  }

  lemma SizeFacts(f: nat) returns (m: nat, q: nat)
    requires FifoSize(f)
    ensures f == CHUNK * m && 0 < m && f * q == TWO_TO_32 && 0 < q && f <= 0x4000_0000
  {
    var e: nat :| 4 <= e <= 30 && f == Pow2(e);
    Pow2Add(4, e - 4);
    Pow2Add(e, 32 - e);
    if e < 30 { Pow2Mono(e, 30); }
    m, q := Pow2(e - 4), Pow2(32 - e);
    Pow2Values();
  }

  /** Masking a wrapped counter gives the position in the buffer. */
  lemma ModOfMod(x: nat, a: nat, b: nat, q: nat)
    requires 0 < b && a == b * q && 0 < q
    ensures 0 < a && (x % a) % b == x % b
  {
    MulMono(b, 1, q);
    var y, z := x / a, (x % a) / b;
    assert x == a * y + x % a && x % a == b * z + (x % a) % b;
    assert a * y == b * (q * y);
    assert b * (q * y) + b * z == b * (q * y + z);
    DivModUnique(x, b, q * y + z, (x % a) % b);
  }

  lemma ChunkMod(k: nat, m: nat)
    requires 0 < m
    ensures (CHUNK * k) % (CHUNK * m) == CHUNK * (k % m)
  {
    var y := k / m;
    assert k == m * y + k % m;
    assert CHUNK * k == (CHUNK * m) * y + CHUNK * (k % m);
    DivModUnique(CHUNK * k, CHUNK * m, y, CHUNK * (k % m));
  }

  /** The buffer slot of the `k`-th chunk ever written, computed from the wrapped byte counter. */
  lemma SlotOf(k: nat, f: nat, m: nat, q: nat)
    requires f == CHUNK * m && 0 < m && f * q == TWO_TO_32 && 0 < q
    ensures ((CHUNK * k) % TWO_TO_32) % f / CHUNK == k % m
  {
    ModOfMod(CHUNK * k, TWO_TO_32, f, q);
    ChunkMod(k, m);
  }

  /** The difference of two wrapped counters is right as long as they are less than 2^32 apart. */
  lemma WrappedDifference(a: nat, b: nat)
    requires b <= a < b + TWO_TO_32
    ensures (a % TWO_TO_32 - b % TWO_TO_32) % TWO_TO_32 == a - b
  {
  }

  /** Chunks less than a buffer apart have different slots. */
  lemma SlotsApart(x: nat, y: nat, m: nat)
    requires 0 < m && x < y < x + m
    ensures x % m != y % m
  {
    if x % m == y % m {
      var a, b := x / m, y / m;
      assert x == m * a + x % m && y == m * b + y % m;
      assert y - x == m * b - m * a == m * (b - a);
      if b - a <= 0 { MulMono(m, b - a, 0); } else { MulMono(m, 1, b - a); }
    }
  }

  // ---------------------------------------------------------------- the FIFO

  /** The wrapped byte counter that stands for `k` chunks. */
  function Wrapped(k: nat): nat { (CHUNK * k) % TWO_TO_32 }

  lemma WrapAdd(n: nat, w: nat)
    ensures (Wrapped(n) + CHUNK * w) % TWO_TO_32 == Wrapped(n + w)
  {
  }

  /** The room test on wrapped counters: `n` chunks written, `released` of them, `w` more wanted. */
  lemma RoomTest(n: nat, w: nat, released: nat, slots: nat)
    requires released <= n <= released + slots && w <= slots && CHUNK * slots <= 0x4000_0000
    ensures ((Wrapped(n) + CHUNK * w) % TWO_TO_32 - Wrapped(released)) % TWO_TO_32 <= CHUNK * slots <==>
      n + w - released <= slots
  {
    WrapAdd(n, w);
    WrappedDifference(CHUNK * (n + w), CHUNK * released);
  }

  /** Pending callbacks carry positions between the released and the last recorded one, in order. */
  ghost predicate MarksOk(marks: seq<nat>, released: nat, recorded: nat)
  {
    && (forall i :: 0 <= i < |marks| ==> released <= marks[i] <= recorded)
    && (forall i, j :: 0 <= i < j < |marks| ==> marks[i] <= marks[j])
    && recorded == if marks == [] then released else marks[|marks| - 1]
  }

  /** Every chunk that is not released yet is still in the buffer. */
  ghost predicate Kept(buf: seq<int>, written: seq<int>, released: nat)
  {
    0 < |buf| && forall x: nat :: released <= x < |written| ==> KeptAt(buf, written, x)
  }

  predicate KeptAt(buf: seq<int>, written: seq<int>, x: nat)
    requires 0 < |buf| && x < |written|
  {
    buf[x % |buf|] == written[x]
  }

  /** Writing the next chunk hits no chunk that is not released yet. */
  lemma KeptPush(buf: seq<int>, written: seq<int>, released: nat, y: int)
    requires Kept(buf, written, released) && released <= |written| < released + |buf|
    ensures Kept(buf[|written| % |buf| := y], written + [y], released)
    ensures forall x: nat :: released <= x < |written| ==> x % |buf| != |written| % |buf|
  {
    var buf', written' := buf[|written| % |buf| := y], written + [y];
    forall x: nat | released <= x < |written| ensures x % |buf| != |written| % |buf| {
      SlotsApart(x, |written|, |buf|);
    }
    forall x: nat | released <= x < |written'| ensures KeptAt(buf', written', x) {
      if x < |written| { assert KeptAt(buf, written, x); }
    }
  }

  class WorkQueue {
    const bytes: nat // workFifoBytes
    var buf: seq<int>
    var produced: nat
    var consumed: nat
    var lastRecorded: nat
    var callbacks: seq<nat>
    ghost var written: seq<int>
    ghost var released: nat
    ghost var recorded: nat
    ghost var marks: seq<nat>

    ghost predicate Valid()
      reads this
    {
      Consistent() && produced == Wrapped(|written|)
    }

    /** The invariant except for the produced counter, which is written last. */
    ghost predicate Consistent()
      reads this
    {
      && FifoSize(bytes) && CHUNK * |buf| == bytes
      && consumed == Wrapped(released) && lastRecorded == Wrapped(recorded)
      && |marks| == |callbacks| && (forall i :: 0 <= i < |marks| ==> callbacks[i] == Wrapped(marks[i]))
      && MarksOk(marks, released, recorded) && released <= recorded <= |written|
      && |written| - released <= |buf| && Kept(buf, written, released)
    }

    constructor (bytes: nat, buf: seq<int>)
      requires FifoSize(bytes) && CHUNK * |buf| == bytes
      ensures Valid() && this.bytes == bytes && written == [] && recorded == 0
    {
      this.bytes, this.buf := bytes, buf;
      produced, consumed, lastRecorded, callbacks := 0, 0, 0, [];
      written, released, recorded, marks := [], 0, 0, [];
      new;
      var m, q := SizeFacts(bytes);
    }

    /** KernelFinishCallback_fn for the oldest recorded event. */
    method PollCallback()
      requires Valid() && callbacks != []
      modifies this`consumed, this`callbacks, this`released, this`marks
      ensures Valid() && released == old(marks)[0] && marks == old(marks)[1..]
    {
      consumed := callbacks[0];
      released := marks[0];
      callbacks := callbacks[1..];
      marks := marks[1..];
      assert forall x: nat :: released <= x < |written| ==> KeptAt(buf, written, x);
    }

    /** The room test of waitWorkFifoAvailable. */
    method HasRoom(desired: nat, ghost w: nat) returns (ok: bool)
      requires Valid() && w <= |buf| && desired == (produced + CHUNK * w) % TWO_TO_32
      ensures ok <==> |written| + w - released <= |buf|
    {
      ghost var m, q := SizeFacts(bytes);
      RoomTest(|written|, w, released, |buf|);
      ok := (desired - consumed) % TWO_TO_32 <= bytes;
    }

    /**
     * waitWorkFifoAvailable for `w` chunks.  `ok` is false when all callbacks have run and there is
     * still no room, in which case the original never returns; this happens exactly when the
     * chunks written since the last recorded event leave too little space.
     */
    method WaitAvailable(w: nat) returns (ok: bool)
      requires Valid() && w <= |buf|
      modifies this`consumed, this`callbacks, this`released, this`marks
      ensures Valid() && (ok <==> |written| + w - recorded <= |buf|)
      ensures ok ==> |written| + w - released <= |buf|
      ensures |written| + w - old(released) <= |buf| ==> released == old(released) && marks == old(marks)
    {
      var desired := (produced + CHUNK * w) % TWO_TO_32;
      ok := HasRoom(desired, w);
      while !ok && callbacks != []
        invariant Valid() && (ok <==> |written| + w - released <= |buf|)
        invariant |written| + w - old(released) <= |buf| ==> ok && released == old(released) && marks == old(marks)
        decreases |callbacks|
      {
        PollCallback();
        ok := HasRoom(desired, w);
      }
    }

    /** One iteration of the copy loop. */
    method WriteChunk(cursor: nat, y: int) returns (cursor': nat)
      requires Consistent() && cursor == Wrapped(|written|) && |written| - released < |buf|
      modifies this`buf, this`written
      ensures Consistent() && cursor' == Wrapped(|written|) && written == old(written) + [y] && |buf| == |old(buf)|
    {
      var m, q := SizeFacts(bytes);
      SlotOf(|written|, bytes, m, q);
      KeptPush(buf, written, released, y);
      WrapAdd(|written|, 1);
      buf := buf[cursor % bytes / CHUNK := y];
      cursor' := (cursor + CHUNK) % TWO_TO_32;
      written := written + [y];
    }

    /** The copy loop. */
    method WriteAll(cursor: nat, work: seq<int>) returns (cursor': nat)
      requires Consistent() && cursor == Wrapped(|written|) && |written| + |work| - released <= |buf|
      modifies this`buf, this`written
      ensures Consistent() && cursor' == Wrapped(|written|) && written == old(written) + work
    {
      cursor' := cursor;
      for i := 0 to |work|
        invariant Consistent() && |buf| == |old(buf)| && cursor' == Wrapped(|written|)
        invariant written == old(written) + work[..i]
      {
        cursor' := WriteChunk(cursor', work[i]);
        assert work[..i + 1] == work[..i] + [work[i]];
      }
      assert work[..|work|] == work;
    }

    /** uploadWork into the FIFO: returns the wrapped position at which the plan's work begins. */
    method Upload(work: seq<int>) returns (ok: bool, base: nat)
      requires Valid() && 2 * |work| <= |buf|
      modifies this
      ensures Valid() && recorded == old(recorded) && base == Wrapped(|old(written)|)
      ensures ok <==> |old(written)| + |work| - recorded <= |buf|
      ensures written == old(written) + if ok then work else []
    {
      base := produced;
      ok := WaitAvailable(|work|);
      if ok { produced := WriteAll(base, work); }
    }

    /** The recording of ncclLaunchFinish; afterwards any plan within the budget finds room. */
    method LaunchFinish()
      requires Valid()
      modifies this`lastRecorded, this`callbacks, this`recorded, this`marks
      ensures Valid() && 8 * (|written| - recorded) <= |buf|
      ensures var due := 8 * (|written| - old(recorded)) > |buf|;
        && recorded == (if due then |written| else old(recorded))
        && marks == (if due then old(marks) + [|written|] else old(marks))
      ensures forall w: nat :: 2 * w <= |buf| ==> |written| + w - recorded <= |buf|
    {
      var m, q := SizeFacts(bytes);
      WrappedDifference(CHUNK * |written|, CHUNK * recorded);
      if (produced - lastRecorded) % TWO_TO_32 > bytes / 8 {
        lastRecorded := produced;
        recorded := |written|;
        callbacks := callbacks + [produced];
        marks := marks + [|written|];
      }
    }

    /** The device reads, through the mask, what was uploaded, until the kernel is released. */
    lemma DeviceReads(n: nat, j: nat)
      requires Valid() && released <= n + j < |written|
      ensures ((Wrapped(n) + CHUNK * j) % TWO_TO_32) % bytes / CHUNK < |buf|
      ensures buf[((Wrapped(n) + CHUNK * j) % TWO_TO_32) % bytes / CHUNK] == written[n + j]
    {
      var m, q := SizeFacts(bytes);
      WrapAdd(n, j);
      SlotOf(n + j, bytes, m, q);
      assert KeptAt(buf, written, n + j);
    }
  }

  /**
   * The plans of one group, of equal size: as many find room as fit into the FIFO together, and
   * the next one never does, because nothing is recorded before the group's single ncclLaunchFinish.
   */
  method PlansInOneGroup(bytes: nat, buf: seq<int>, work: seq<int>, plans: nat) returns (uploaded: nat)
    requires FifoSize(bytes) && CHUNK * |buf| == bytes && 2 * |work| <= |buf|
    ensures uploaded <= plans && uploaded * |work| <= |buf|
    ensures uploaded < plans ==> |buf| < (uploaded + 1) * |work|
  {
    var queue := new WorkQueue(bytes, buf);
    uploaded := 0;
    while uploaded < plans
      invariant queue.Valid() && fresh(queue) && CHUNK * |queue.buf| == bytes == queue.bytes && queue.recorded == 0
      invariant |queue.written| == uploaded * |work| <= |buf| && uploaded <= plans
    {
      MulNext(|work|, uploaded);
      var ok, base := queue.Upload(work);
      if !ok { return; }
      uploaded := uploaded + 1;
    }
  }

  /**
   * Several plans of one group are uploaded before the group's single ncclLaunchFinish.  Three
   * plans of half the FIFO each are all within the budget, yet the third one never finds room.
   */
  method ThreePlansInOneGroup(bytes: nat, buf: seq<int>, work: seq<int>)
    returns (first: bool, second: bool, third: bool)
    requires FifoSize(bytes) && CHUNK * |buf| == bytes && 2 * |work| == |buf|
    ensures first && second && !third
  {
    var m, q := SizeFacts(bytes);
    var queue := new WorkQueue(bytes, buf);
    var base;
    first, base := queue.Upload(work);
    second, base := queue.Upload(work);
    third, base := queue.Upload(work);
  }
}
