/**
 * The progress thread as a whole (nccl/src/proxy.cc `ncclProxyProgress`): it drains the ops that the
 * clients posted to the pool into its own lists and makes passes over these.  The drain loop stops
 * exactly when `ProxyAppend` refuses an op.
 */
module ProxyDaemon {
  import opened Arith
  import opened LinkedChains
  import Pool = ProxyOpsPool
  import Progress = ProxyProgress

  /** What the progress thread reads in an op: its connection's slot, and the fields compared on aggregation. */
  type Reading = Pool.Entry -> Progress.Op

  /** The ops on slot `c` among the entries `q`, in order. */
  function OnSlot(read: Reading, c: nat, q: seq<Pool.Entry>): seq<Progress.Op>
  {
    if q == [] then []
    else OnSlot(read, c, q[..|q| - 1]) + if read(q[|q| - 1]).slot == c then [read(q[|q| - 1])] else []
  }

  lemma OnSlotNext(read: Reading, c: nat, q: seq<Pool.Entry>, e: Pool.Entry)
    ensures OnSlot(read, c, q + [e]) == OnSlot(read, c, q) + if read(e).slot == c then [read(e)] else []
  {
    assert (q + [e])[..|q|] == q;
  }

  lemma {:induction false} OnSlotPrefix(read: Reading, c: nat, a: seq<Pool.Entry>, b: seq<Pool.Entry>)
    requires a <= b
    ensures OnSlot(read, c, a) <= OnSlot(read, c, b)
    decreases |b|
  {
    if a != b {
      OnSlotPrefix(read, c, a, b[..|b| - 1]);
    }
  }

  /** The ops of client `r`, as the progress thread sees them. */
  function Tagged(r: nat, ops: seq<Pool.Op>): (q: seq<Pool.Entry>)
    ensures |q| == |ops| && forall i :: 0 <= i < |ops| ==> q[i] == Pool.Entry(r, ops[i])
  {
    seq(|ops|, i requires 0 <= i < |ops| => Pool.Entry(r, ops[i]))
  }

  /** Only client `r` uses slot `c`. */
  ghost predicate Private(read: Reading, c: nat, r: nat)
  {
    forall e :: read(e).slot == c ==> e.peer == r
  }

  lemma {:induction false} OneClient(read: Reading, c: nat, r: nat, q: seq<Pool.Entry>)
    requires Private(read, c, r)
    ensures OnSlot(read, c, q) == OnSlot(read, c, Tagged(r, Pool.Of(r, q)))
  {
    if q != [] {
      var p, e := q[..|q| - 1], q[|q| - 1];
      OneClient(read, c, r, p);
      if e.peer == r {
        assert Tagged(r, Pool.Of(r, p) + [e.op]) == Tagged(r, Pool.Of(r, p)) + [e];
        OnSlotNext(read, c, Tagged(r, Pool.Of(r, p)), e);
      } else {
        assert read(e).slot != c && Pool.Of(r, q) == Pool.Of(r, p) + [] == Pool.Of(r, p);
      }
    }
  }

  /** The op at the head of `nextOps`. */
  function NextEntry(s: Pool.State): Pool.Entry
    requires 0 <= s.head(Pool.Draining) < |s.ops|
  {
    Pool.Entry(Pool.Peer(s.head(Pool.Draining)), s.ops[s.head(Pool.Draining)])
  }

  lemma Drainable(trace: seq<Pool.State>, events: seq<Pool.Event>)
    requires Pool.Run(trace, events)
    ensures var s := trace[|events|];
      Pool.Sized(s) && (s.head(Pool.Draining) != -1 ==> 0 <= s.head(Pool.Draining) < |s.ops|)
  {
    var v := Pool.RunRep(trace, events, |events|);
    assert Pool.ChainAt(trace[|events|], v, Pool.Draining);
  }

  lemma OthersKeepProcessed(s: Pool.State, e: Pool.Event)
    requires Pool.Sized(s) && Pool.Enabled(s, e) && !e.DrainOne?
    ensures Pool.Apply(s, e).processed == s.processed
  {
  }

  lemma DrainProcessed(s: Pool.State, e: Pool.Event)
    requires Pool.Sized(s) && Pool.Enabled(s, e) && (e.DrainOne? || e.Fail?) && 0 <= s.head(Pool.Draining) < |s.ops|
    ensures Pool.Apply(s, e).processed == s.processed + if e.DrainOne? then [NextEntry(s)] else []
  {
  }

  /** What the slots were given is what was accepted, slot by slot. */
  ghost predicate Matches(read: Reading, slots: nat, given: seq<seq<Progress.Op>>, accepted: seq<Pool.Entry>)
  {
    |given| == slots && forall c: nat :: c < slots ==> given[c] == OnSlot(read, c, accepted)
  }

  lemma Accept(read: Reading, slots: nat, given: seq<seq<Progress.Op>>, given': seq<seq<Progress.Op>>,
               accepted: seq<Pool.Entry>, e: Pool.Entry)
    requires Matches(read, slots, given, accepted) && read(e).slot < slots
    requires given' == given[read(e).slot := given[read(e).slot] + [read(e)]]
    ensures Matches(read, slots, given', accepted + [e])
  {
    forall c: nat | c < slots ensures given'[c] == OnSlot(read, c, accepted + [e]) {
      OnSlotNext(read, c, accepted, e);
    }
  }

  class Daemon {
    const read: Reading
    const slots: nat
    const progress: Progress.ProgressState
    var pool: Pool.State
    ghost var trace: seq<Pool.State>
    ghost var events: seq<Pool.Event>
    ghost var accepted: seq<Pool.Entry> // the ops in the progress thread's lists or done, in order
    ghost var strays: nat               // those among them that were refused

    ghost predicate Valid()
      reads this, progress
    {
      && Fed() && Logged()
      && |accepted| == |pool.processed| + strays && (strays == 0 ==> accepted == pool.processed)
    }

    /** The lists hold what was accepted. */
    ghost predicate Fed()
      reads this, progress
    {
      && progress.Valid() && progress.view.lists(Progress.Taken) == [] && |progress.mem.append| == slots
      && (forall e :: read(e).slot < slots) && Matches(read, slots, progress.given, accepted)
    }

    ghost predicate Logged()
      reads this
    {
      Pool.Run(trace, events) && pool == trace[|events|] && Pool.Sized(pool)
    }

    constructor (read: Reading, slots: nat, pool: Pool.State)
      requires Pool.Initial(pool) && forall e :: read(e).slot < slots
      ensures Valid() && this.read == read && this.slots == slots && this.pool == pool && fresh(progress)
      ensures strays == 0 && events == [] && forall c :: 0 <= c < slots ==> progress.mem.append[c] == -1
    {
      this.read, this.slots, this.pool := read, slots, pool;
      progress := new Progress.ProgressState(slots);
      trace, events, accepted, strays := [pool], [], [], 0;
    }

    /** A step of a client, or of the progress thread outside the drain loop. */
    method PoolStep(e: Pool.Event)
      requires Valid() && Pool.Enabled(pool, e) && !e.DrainOne? && !e.Fail?
      modifies this
      ensures Valid() && pool == Pool.Apply(old(pool), e) && events == old(events) + [e] && strays == old(strays)
      ensures trace == old(trace) + [pool] && pool.processed == old(pool).processed
    {
      OthersKeepProcessed(pool, e);
      Take(e);
    }

    /** The pool takes a step. */
    method Take(e: Pool.Event)
      requires Logged() && Pool.Enabled(pool, e)
      modifies this`pool, this`trace, this`events
      ensures Logged() && pool == Pool.Apply(old(pool), e)
      ensures events == old(events) + [e] && trace == old(trace) + [pool]
    {
      ghost var t, es := Pool.RunStep(trace, events, e);
      pool := Pool.Apply(pool, e);
      trace, events := t, es;
    }

    /** `ProxyAppend`, with the bookkeeping. */
    method Offer(entry: Pool.Entry) returns (ok: bool)
      requires Fed()
      modifies this`accepted, this`strays, progress
      ensures Fed() && (ok <==> !Progress.Refuses(old(progress.mem), read(entry)))
      ensures var added := ok || !Progress.Overflows(old(progress.mem), read(entry));
        accepted == (if added then old(accepted) + [entry] else old(accepted)) &&
        strays == old(strays) + if added && !ok then 1 else 0
      ensures ok ==> var op, m := read(entry), old(progress.mem);
        var q := if Progress.Aggregates(m, op) then m.subs[m.append[op.slot]] else [];
        Progress.Queued(progress.mem, op.slot, op.opCount, op.kind, q + [op])
    {
      var op := read(entry);
      ghost var m, given := progress.mem, progress.given;
      ok := progress.ProxyAppend(op);
      if !Progress.Overflows(m, op) {
        Accept(read, slots, given, progress.given, accepted, entry);
        accepted := accepted + [entry];
        if !ok { strays := strays + 1; }
      }
    }

    /** One iteration of the drain loop: it goes on iff `ProxyAppend` accepts the op. */
    method DrainOne() returns (ok: bool)
      requires Valid() && Pool.Enabled(pool, Pool.DrainOne)
      modifies this, progress
      ensures Valid() && 0 <= old(pool).head(Pool.Draining) < |old(pool).ops|
      ensures var e, op, m := if ok then Pool.DrainOne else Pool.Fail, read(NextEntry(old(pool))), old(progress.mem);
        && pool == Pool.Apply(old(pool), e) && events == old(events) + [e] && trace == old(trace) + [pool]
        && pool.processed == old(pool).processed + (if ok then [NextEntry(old(pool))] else [])
        && (ok <==> !Progress.Refuses(m, op))
        && strays == old(strays) + (if ok || Progress.Overflows(m, op) then 0 else 1)
        && (ok ==> var q := if Progress.Aggregates(m, op) then m.subs[m.append[op.slot]] else [];
              Progress.Queued(progress.mem, op.slot, op.opCount, op.kind, q + [op]))
    {
      Drainable(trace, events);
      ok := Offer(NextEntry(pool));
      var e := if ok then Pool.DrainOne else Pool.Fail;
      DrainProcessed(pool, e);
      Take(e);
    }

    /** A pass over the active list. */
    method Pass(ended: nat -> bool, error: nat -> int) returns (status: int)
      requires Valid()
      modifies progress
      ensures Valid() && progress.given == old(progress.given)
    {
      status := progress.ProgressOps(ended, error);
    }

    /**
     * End to end: as long as no refused op was left in the lists, what has been done of the ops of
     * a client on its own slot is a first part of what the client appended for that slot, in order.
     */
    lemma DoneInOrder(c: nat, r: nat)
      requires Valid() && c < slots && r < |pool.submitted| && Private(read, c, r) && strays == 0
      ensures progress.done[c] <= OnSlot(read, c, Tagged(r, pool.submitted[r]))
    {
      var q := pool.processed;
      assert Progress.OrderHolds(progress.mem, progress.view, progress.given, progress.done, c);
      OneClient(read, c, r, q);
      Pool.ProcessedInOrder(trace, events, |events|, r);
      assert Tagged(r, Pool.Of(r, q)) <= Tagged(r, pool.submitted[r]);
      OnSlotPrefix(read, c, Tagged(r, Pool.Of(r, q)), Tagged(r, pool.submitted[r]));
    }
  }

  // ---------------------------------------------------------------- refused ops

  /** All ops on one shared slot, alike in all fields that are compared. */
  function Alike(e: Pool.Entry): Progress.Op { Progress.Op(0, true, e.op.opCount, 0, e.op.payload) }

  /** Nothing, or `i` ops of opCount `c`, in the args of slot 0. */
  ghost predicate Holds(m: Progress.Mem, i: nat, c: nat)
  {
    if i == 0 then |m.append| == 1 && m.append[0] == -1
    else exists q :: |q| == i && Progress.Queued(m, 0, c, 0, q)
  }

  lemma Held(m: Progress.Mem, i: nat, c: nat, op: Progress.Op) returns (q: seq<Progress.Op>)
    requires Holds(m, i, c) && op.slot == 0 && op.shared && op.opCount == c && op.kind == 0
    ensures Progress.Refuses(m, op) <==> Progress.Overflows(m, op)
    ensures Progress.Overflows(m, op) <==> Progress.MAX_SUBS <= i
    ensures |q| == i && q == if Progress.Aggregates(m, op) then m.subs[m.append[op.slot]] else []
  {
    if i == 0 { q := []; } else { q :| |q| == i && Progress.Queued(m, 0, c, 0, q); }
  }

  /** A daemon all of whose ops are alike has accepted `i` of them. */
  ghost predicate Alikes(d: Daemon, i: nat, c: nat)
    reads d, d.progress
  {
    && d.Valid() && d.read == Alike && d.slots == 1 && d.strays == 0
    && |d.pool.processed| == i && Holds(d.progress.mem, i, c)
  }

  method StartAlike(c: nat) returns (d: Daemon)
    ensures fresh(d) && fresh(d.progress) && Alikes(d, 0, c) && Pool.Filled(d.pool, 0, c)
  {
    Pool.OneRankStarts();
    d := new Daemon(Alike, 1, Pool.OneRank());
    d.PoolStep(Pool.Refill(0));
  }

  method StepAlike(d: Daemon, e: Pool.Event, i: nat, c: nat)
    requires Alikes(d, i, c) && Pool.Enabled(d.pool, e) && !e.DrainOne? && !e.Fail?
    modifies d
    ensures Alikes(d, i, c) && d.pool == Pool.Apply(old(d.pool), e)
  {
    d.PoolStep(e);
  }

  /** The client appends `n` ops of one opCount and starts; the progress thread begins to drain. */
  method PostAlike(n: nat, c: nat) returns (d: Daemon)
    requires 0 < n < Pool.MAX_OPS_PER_PEER
    ensures fresh(d) && fresh(d.progress) && Alikes(d, 0, c) && Pool.PartlyDrained(d.pool, 0, n, c)
  {
    d := StartAlike(c);
    for m := 0 to n
      invariant fresh(d) && fresh(d.progress) && Alikes(d, 0, c) && Pool.Filled(d.pool, m, c)
    {
      Pool.FillOne(d.pool, m, c);
      StepAlike(d, Pool.Append(0, Pool.Op(c, 0)), 0, c);
    }
    Pool.DrainStart(d.pool, n, c);
    StepAlike(d, Pool.Start(0), 0, c);
    StepAlike(d, Pool.Begin, 0, c);
  }

  method AcceptAlike(d: Daemon, i: nat, n: nat, c: nat)
    requires Alikes(d, i, c) && i < Progress.MAX_SUBS && i + 1 < n && Pool.PartlyDrained(d.pool, i, n, c)
    modifies d, d.progress
    ensures Alikes(d, i + 1, c) && Pool.PartlyDrained(d.pool, i + 1, n, c)
  {
    Pool.DrainNext(d.pool, i, n, c);
    ghost var op := Alike(NextEntry(d.pool));
    ghost var q := Held(d.progress.mem, i, c, op);
    var ok := d.DrainOne();
    assert Progress.Queued(d.progress.mem, 0, c, 0, q + [op]);
  }

  /** The failing call, up to its return. */
  method RefuseAlike(d: Daemon, n: nat, c: nat)
    requires Alikes(d, Progress.MAX_SUBS, c) && n == Progress.MAX_SUBS + 1
    requires Pool.PartlyDrained(d.pool, Progress.MAX_SUBS, n, c)
    modifies d, d.progress
    ensures d.Valid() && |d.pool.processed| == Progress.MAX_SUBS
    ensures d.pool.phase == Pool.Abandon(0) && |d.pool.count| == 1
    ensures |d.events| == |old(d.events)| + 1 && Pool.Loses(d.trace[|d.events| - 1], d.events[|d.events| - 1])
  {
    Pool.DrainNext(d.pool, Progress.MAX_SUBS, n, c);
    ghost var q := Held(d.progress.mem, Progress.MAX_SUBS, c, Alike(NextEntry(d.pool)));
    assert Pool.IsDrained(d.pool, 0);
    assert Pool.Loses(d.pool, Pool.Fail);
    var ok := d.DrainOne();
  }

  /** The return of the failing call drops the ops drained before. */
  method ReturnAlike(d: Daemon) returns (ghost v: View<Pool.Place>)
    requires d.Valid() && d.pool.phase == Pool.Abandon(0) && d.events != [] && |d.pool.count| == 1
    requires Pool.Loses(d.trace[|d.events| - 1], d.events[|d.events| - 1])
    modifies d
    ensures d.Valid() && d.pool.processed == old(d.pool).processed && Pool.Rep(d.pool, v) && Pool.SomeLost(v)
  {
    ghost var k := |d.events| - 1;
    d.PoolStep(Pool.AbandonOne);
    assert Pool.Loses(d.trace[k], d.events[k]);
    v := Pool.RunLoss(d.trace, d.events, |d.events|);
  }

  /**
   * 65 ops of one opCount on one shared slot: `ProxyAppend` takes 64 and refuses the last one, and
   * ops of the 64 are in no chain of the pool afterwards.
   */
  method LossyRun(c: nat) returns (d: Daemon, ghost v: View<Pool.Place>)
    ensures fresh(d) && d.Valid() && Pool.Rep(d.pool, v) && Pool.SomeLost(v) && |d.pool.processed| == Progress.MAX_SUBS
  {
    var n := Progress.MAX_SUBS + 1;
    d := PostAlike(n, c);
    for i := 0 to Progress.MAX_SUBS
      invariant fresh(d) && fresh(d.progress) && Alikes(d, i, c) && Pool.PartlyDrained(d.pool, i, n, c)
    {
      AcceptAlike(d, i, n, c);
    }
    RefuseAlike(d, n, c);
    v := ReturnAlike(d);
  }

  /** Two ops of one opCount on a shared slot that differ in a compared field: the second is refused, yet added. */
  method RefusedStays(a: Progress.Op, b: Progress.Op) returns (first: bool, second: bool, st: Progress.ProgressState)
    requires a.slot == b.slot == 0 && b.shared && a.opCount == b.opCount && a.kind != b.kind
    ensures first && !second && fresh(st) && st.Valid() && |st.given| == 1 && st.given[0] == [a, b]
  {
    st := new Progress.ProgressState(1);
    first := st.ProxyAppend(a);
    assert st.given[0] == [a];
    second := st.ProxyAppend(b);
    assert st.given[0] == [a] + [b];
  }
}
