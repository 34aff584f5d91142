/**
 * The streams of memory operations that `ncclMemOpSync` enqueues (nccl/src/ce_coll.cc), executed
 * operation by operation in stream order.  The state machine of `CeSync` runs exactly these
 * streams, so that what is proved of it holds of the operations the host prepares.
 */
module CeStreams {
  import opened Arith
  import opened CeSync
  import opened CeSyncExact
  import opened CeHost

  // ---------------------------------------------------------------- streams

  /** What is left of each rank's stream, and the flags. */
  datatype Streams = Streams(queues: seq<seq<MemOp>>, flags: Cell -> int)

  predicate CanStep(st: Streams, r: nat)
  {
    r < |st.queues| && st.queues[r] != [] && CanRun(st.flags, st.queues[r][0])
  }

  function StepStream(st: Streams, r: nat): Streams
    requires CanStep(st, r)
  {
    Streams(st.queues[r := st.queues[r][1..]], Execute(st.flags, st.queues[r][0]))
  }

  ghost predicate StreamRun(st: Streams, sched: seq<nat>, st': Streams)
    decreases |sched|
  {
    if sched == [] then st' == st
    else CanStep(st, sched[0]) && StreamRun(StepStream(st, sched[0]), sched[1..], st')
  }

  /** A multicast writes a rank's flag on all `n` ranks. */
  function Expand(op: MemOp, n: nat): seq<MemOp>
  {
    if op.Multicast? then seq(n, i requires 0 <= i < n => Write(Cell(op.complete, i, op.src), op.value)) else [op]
  }

  function ExpandAll(ops: seq<MemOp>, n: nat): seq<MemOp>
  {
    if ops == [] then [] else ExpandAll(ops[..|ops| - 1], n) + Expand(ops[|ops| - 1], n)
  }

  /** `f(k)`, `f(k + 1)` and so on, up to `f(n - 1)`, in one sequence. */
  function Flat(f: nat -> seq<MemOp>, k: nat, n: nat): seq<MemOp>
    decreases n - k
  {
    if n <= k then [] else f(k) + Flat(f, k + 1, n)
  }

  lemma {:induction false} FlatGrows(f: nat -> seq<MemOp>, k: nat, n: nat)
    requires k <= n
    ensures Flat(f, k, n + 1) == Flat(f, k, n) + f(n)
    decreases n - k
  {
    if k < n {
      FlatGrows(f, k + 1, n);
      Assoc(f(k), Flat(f, k + 1, n), f(n));
    }
  }

  lemma {:induction false} FlatSame(f: nat -> seq<MemOp>, g: nat -> seq<MemOp>, k: nat, n: nat)
    requires forall i: nat :: k <= i < n ==> f(i) == g(i)
    ensures Flat(f, k, n) == Flat(g, k, n)
    decreases n - k
  {
    if k < n { FlatSame(f, g, k + 1, n); }
  }

  /** The stream of rank `r` for each sync. */
  function SyncStreams(n: nat, script: Script, multicast: bool, r: nat): nat -> seq<MemOp>
  {
    (k: nat) => if k < |script| then ExpandAll(SyncOps(script[k], multicast, r, n), n) else []
  }

  /** The stream of rank `r` for the syncs from number `k` on. */
  function Program(cf: Config, r: nat, k: nat): seq<MemOp>
  {
    Flat(SyncStreams(cf.n, cf.script, cf.multicast, r), k, |cf.script|)
  }

  // ---------------------------------------------------------------- what a rank still has to do

  /** The operations of a phase from rank `i` on. */
  function PhaseRest(sync: Sync, multicast: bool, r: nat, phase: Phase, i: nat, n: nat): seq<MemOp>
  {
    Flat(OpsOf(sync, multicast, r, phase), i, n)
  }

  function OpsOf(sync: Sync, multicast: bool, r: nat, phase: Phase): nat -> seq<MemOp>
  {
    (i: nat) => OpAt(sync, multicast, r, phase, i)
  }

  lemma RestStep(sync: Sync, multicast: bool, r: nat, phase: Phase, i: nat, n: nat)
    requires i < n
    ensures PhaseRest(sync, multicast, r, phase, i, n) ==
      OpAt(sync, multicast, r, phase, i) + PhaseRest(sync, multicast, r, phase, i + 1, n)
  {
  }

  /** The operations left in the sync a rank is in. */
  function Left(sync: Sync, multicast: bool, r: nat, phase: Phase, i: nat, n: nat): seq<MemOp>
  {
    PhaseRest(sync, multicast, r, phase, i, n) + After(sync, multicast, r, phase, n)
  }

  /** The operations of the later phases. */
  function After(sync: Sync, multicast: bool, r: nat, phase: Phase, n: nat): seq<MemOp>
  {
    match phase
    case Writing => PhaseRest(sync, multicast, r, Waiting, 0, n) + PhaseRest(sync, multicast, r, Resetting, 0, n)
    case Waiting => PhaseRest(sync, multicast, r, Resetting, 0, n)
    case Resetting => []
  }

  lemma LeftStep(sync: Sync, multicast: bool, r: nat, phase: Phase, i: nat, n: nat)
    requires i < n
    ensures Left(sync, multicast, r, phase, i, n) ==
      OpAt(sync, multicast, r, phase, i) + Left(sync, multicast, r, phase, i + 1, n)
  {
    RestStep(sync, multicast, r, phase, i, n);
    Assoc(OpAt(sync, multicast, r, phase, i), PhaseRest(sync, multicast, r, phase, i + 1, n),
      After(sync, multicast, r, phase, n));
  }

  lemma LeftEnd(sync: Sync, multicast: bool, r: nat, n: nat)
    ensures Left(sync, multicast, r, Writing, n, n) == Left(sync, multicast, r, Waiting, 0, n)
    ensures Left(sync, multicast, r, Waiting, n, n) == Left(sync, multicast, r, Resetting, 0, n)
    ensures Left(sync, multicast, r, Resetting, n, n) == []
  {
    RestEnd(sync, multicast, r, Writing, n);
    RestEnd(sync, multicast, r, Waiting, n);
    RestEnd(sync, multicast, r, Resetting, n);
  }

  lemma RestEnd(sync: Sync, multicast: bool, r: nat, phase: Phase, n: nat)
    ensures PhaseRest(sync, multicast, r, phase, n, n) == []
  {
  }

  /** The streams by rank and sync: `prog(r, k)` is the program of rank `r` from sync `k` on. */
  type Programs = (nat, nat) -> seq<MemOp>

  ghost predicate AreProgrammed(cf: Config, prog: Programs)
  {
    forall r: nat, k: nat :: ProgramAt(cf, prog, r, k)
  }

  predicate ProgramAt(cf: Config, prog: Programs, r: nat, k: nat)
  {
    prog(r, k) ==
      if |cf.script| <= k then []
      else ExpandAll(SyncOps(cf.script[k], cf.multicast, r, cf.n), cf.n) + prog(r, k + 1)
  }

  function Todo(cf: Config, prog: Programs, r: nat, p: Rank): seq<MemOp>
  {
    if |cf.script| <= p.k then []
    else TodoWith(cf, r, p, prog(r, p.k + 1))
  }

  /** What is left of the current sync, and then `later`. */
  function TodoWith(cf: Config, r: nat, p: Rank, later: seq<MemOp>): seq<MemOp>
    requires p.k < |cf.script|
  {
    Left(cf.script[p.k], cf.multicast, r, p.phase, p.i, cf.n) + later
  }

  lemma MoveOn(cf: Config, r: nat, p: Rank, later: seq<MemOp>)
    requires p.k < |cf.script| && p.i < cf.n
    ensures TodoWith(cf, r, p, later) ==
      OpAt(cf.script[p.k], cf.multicast, r, p.phase, p.i) + TodoWith(cf, r, p.(i := p.i + 1), later)
  {
    var sync, i := cf.script[p.k], p.i + 1;
    var op, left, rest := OpAt(sync, cf.multicast, r, p.phase, p.i), Left(sync, cf.multicast, r, p.phase, p.i, cf.n),
      Left(sync, cf.multicast, r, p.phase, i, cf.n);
    assert left == op + rest by { LeftStep(sync, cf.multicast, r, p.phase, p.i, cf.n); }
    Assoc(op, rest, later);
  }

  lemma PhaseOver(cf: Config, r: nat, p: Rank, later: seq<MemOp>)
    requires p.k < |cf.script| && p.i == cf.n
    ensures TodoWith(cf, r, p, later) == match p.phase
      case Writing => TodoWith(cf, r, Rank(p.k, Waiting, 0), later)
      case Waiting => TodoWith(cf, r, Rank(p.k, Resetting, 0), later)
      case Resetting => later
  {
    LeftEnd(cf.script[p.k], cf.multicast, r, cf.n);
  }

  lemma {:induction false} PhaseAll(sync: Sync, multicast: bool, r: nat, phase: Phase, n: nat)
    ensures PhaseOps(sync, multicast, r, phase, n) == PhaseRest(sync, multicast, r, phase, 0, n)
  {
    if n != 0 {
      PhaseAll(sync, multicast, r, phase, n - 1);
      FlatGrows(OpsOf(sync, multicast, r, phase), 0, n - 1);
    }
  }

  predicate NoMulticast(ops: seq<MemOp>)
  {
    forall i :: 0 <= i < |ops| ==> !ops[i].Multicast?
  }

  lemma {:induction false} ExpandPlain(ops: seq<MemOp>, n: nat)
    requires NoMulticast(ops)
    ensures ExpandAll(ops, n) == ops
  {
    if ops != [] {
      ExpandPlain(ops[..|ops| - 1], n);
      assert ops == ops[..|ops| - 1] + [ops[|ops| - 1]];
    }
  }

  lemma {:induction false} ExpandConcat(a: seq<MemOp>, b: seq<MemOp>, n: nat)
    ensures ExpandAll(a + b, n) == ExpandAll(a, n) + ExpandAll(b, n)
  {
    if b == [] {
      assert a + b == a;
    } else {
      var m := |b| - 1;
      ExpandConcat(a, b[..m], n);
      assert (a + b)[..|a + b| - 1] == a + b[..m] && (a + b)[|a + b| - 1] == b[m];
      Assoc(ExpandAll(a, n), ExpandAll(b[..m], n), Expand(b[m], n));
    }
  }

  lemma {:induction false} RestPlain(sync: Sync, multicast: bool, r: nat, phase: Phase, i: nat, n: nat)
    ensures NoMulticast(PhaseRest(sync, multicast, r, phase, i, n))
    decreases n - i
  {
    if i < n {
      RestStep(sync, multicast, r, phase, i, n);
      RestPlain(sync, multicast, r, phase, i + 1, n);
    }
  }

  lemma {:induction false} MulticastWrites(sync: Sync, r: nat, i: nat, n: nat)
    requires i <= n
    ensures PhaseRest(sync, true, r, Writing, i, n) == Expand(Multicast(sync.complete, r, sync.value), n)[i..]
    decreases n - i
  {
    var all := Expand(Multicast(sync.complete, r, sync.value), n);
    if i < n {
      MulticastWrites(sync, r, i + 1, n);
      RestStep(sync, true, r, Writing, i, n);
      assert all[i..] == [all[i]] + all[i + 1..];
    }
  }

  lemma RestsPlain(sync: Sync, multicast: bool, r: nat, n: nat)
    ensures NoMulticast(After(sync, multicast, r, Writing, n))
  {
    RestPlain(sync, multicast, r, Waiting, 0, n);
    RestPlain(sync, multicast, r, Resetting, 0, n);
  }

  /** The prepared operations of a sync are what a rank has to do at its beginning. */
  lemma SyncOpsAre(sync: Sync, multicast: bool, r: nat, n: nat)
    ensures ExpandAll(SyncOps(sync, multicast, r, n), n) == Left(sync, multicast, r, Writing, 0, n)
  {
    var rest := After(sync, multicast, r, Writing, n);
    PhaseAll(sync, multicast, r, Waiting, n);
    PhaseAll(sync, multicast, r, Resetting, n);
    RestsPlain(sync, multicast, r, n);
    ExpandPlain(rest, n);
    if multicast { MulticastFirst(sync, r, n, rest); } else { UnicastFirst(sync, r, n, rest); }
  }

  lemma MulticastFirst(sync: Sync, r: nat, n: nat, rest: seq<MemOp>)
    requires ExpandAll(rest, n) == rest
    ensures ExpandAll([Multicast(sync.complete, r, sync.value)] + rest, n) ==
      PhaseRest(sync, true, r, Writing, 0, n) + rest
  {
    var first := [Multicast(sync.complete, r, sync.value)];
    MulticastWrites(sync, r, 0, n);
    ExpandConcat(first, rest, n);
    assert first[..0] == [] && ExpandAll(first, n) == Expand(first[0], n);
  }

  lemma UnicastFirst(sync: Sync, r: nat, n: nat, rest: seq<MemOp>)
    requires ExpandAll(rest, n) == rest
    ensures ExpandAll(PhaseOps(sync, false, r, Writing, n) + rest, n) == PhaseRest(sync, false, r, Writing, 0, n) + rest
  {
    PhaseAll(sync, false, r, Writing, n);
    RestPlain(sync, false, r, Writing, 0, n);
    ExpandPlain(PhaseRest(sync, false, r, Writing, 0, n), n);
    ExpandConcat(PhaseRest(sync, false, r, Writing, 0, n), rest, n);
  }

  lemma TodoAtStart(cf: Config, prog: Programs, r: nat, k: nat)
    requires AreProgrammed(cf, prog)
    ensures Todo(cf, prog, r, Rank(k, Writing, 0)) == prog(r, k)
  {
    assert ProgramAt(cf, prog, r, k);
    if k < |cf.script| { SyncOpsAre(cf.script[k], cf.multicast, r, cf.n); }
  }

  // ---------------------------------------------------------------- the machine runs the streams

  function Abs(cf: Config, prog: Programs, s: State): Streams
    requires |s.ranks| == cf.n
  {
    Streams(seq(cf.n, r requires 0 <= r < cf.n => Todo(cf, prog, r, s.ranks[r])), s.flags)
  }

  /** The next step of rank `r` executes no operation. */
  predicate Silent(cf: Config, s: State, r: nat)
    requires Sized(cf, s) && r < cf.n && !Done(cf, s, r)
  {
    var p := s.ranks[r];
    p.i == cf.n || OpAt(cf.script[p.k], cf.multicast, r, p.phase, p.i) == []
  }

  /** What a silent step does to a rank's place. */
  function Onward(cf: Config, p: Rank): Rank
  {
    if p.i < cf.n then p.(i := p.i + 1)
    else match p.phase
      case Writing => Rank(p.k, Waiting, 0)
      case Waiting => Rank(p.k, Resetting, 0)
      case Resetting => Rank(p.k + 1, Writing, 0)
  }

  lemma SilentTodo(cf: Config, prog: Programs, r: nat, p: Rank)
    requires AreProgrammed(cf, prog)
    requires p.k < |cf.script| && p.i <= cf.n
    requires p.i == cf.n || OpAt(cf.script[p.k], cf.multicast, r, p.phase, p.i) == []
    ensures Todo(cf, prog, r, Onward(cf, p)) == Todo(cf, prog, r, p)
  {
    if p.i < cf.n {
      MoveOn(cf, r, p, prog(r, p.k + 1));
    } else {
      PhaseTodo(cf, prog, r, p);
    }
  }

  lemma PhaseTodo(cf: Config, prog: Programs, r: nat, p: Rank)
    requires AreProgrammed(cf, prog) && p.k < |cf.script| && p.i == cf.n
    ensures Todo(cf, prog, r, Onward(cf, p)) == Todo(cf, prog, r, p)
  {
    var later := prog(r, p.k + 1);
    PhaseOver(cf, r, p, later);
    if p.phase.Resetting? {
      TodoAtStart(cf, prog, r, p.k + 1);
    } else {
      assert Todo(cf, prog, r, Onward(cf, p)) == TodoWith(cf, r, Onward(cf, p), later);
    }
  }

  lemma VisibleTodo(cf: Config, prog: Programs, r: nat, p: Rank, op: MemOp)
    requires p.k < |cf.script| && p.i < cf.n && OpAt(cf.script[p.k], cf.multicast, r, p.phase, p.i) == [op]
    ensures Todo(cf, prog, r, p) == [op] + Todo(cf, prog, r, p.(i := p.i + 1))
  {
    MoveOn(cf, r, p, prog(r, p.k + 1));
  }

  lemma SilentMoves(cf: Config, s: State, r: nat)
    requires Sized(cf, s) && r < cf.n && !Done(cf, s, r) && Silent(cf, s, r)
    ensures Enabled(cf, s, r) && Step(cf, s, r) == State(s.ranks[r := Onward(cf, s.ranks[r])], s.flags)
  {
  }

  /** A step that executes no operation leaves the streams alone. */
  lemma SilentStep(cf: Config, prog: Programs, s: State, r: nat)
    requires AreProgrammed(cf, prog)
    requires Sized(cf, s) && r < cf.n && !Done(cf, s, r) && Silent(cf, s, r)
    ensures Enabled(cf, s, r) && Sized(cf, Step(cf, s, r)) && Abs(cf, prog, Step(cf, s, r)) == Abs(cf, prog, s)
  {
    SilentTodo(cf, prog, r, s.ranks[r]);
    SilentMoves(cf, s, r);
    assert Abs(cf, prog, Step(cf, s, r)).queues == Abs(cf, prog, s).queues;
  }

  lemma VisibleMoves(cf: Config, s: State, r: nat, op: MemOp)
    requires Sized(cf, s) && r < cf.n && !Done(cf, s, r) && s.ranks[r].i < cf.n
    requires OpAt(cf.script[s.ranks[r].k], cf.multicast, r, s.ranks[r].phase, s.ranks[r].i) == [op]
    ensures Enabled(cf, s, r) <==> CanRun(s.flags, op)
    ensures Enabled(cf, s, r) ==>
      Step(cf, s, r) == State(s.ranks[r := s.ranks[r].(i := s.ranks[r].i + 1)], Execute(s.flags, op))
  {
    StepExecutes(cf, s, r);
  }

  lemma AbsMoves(cf: Config, prog: Programs, s: State, r: nat, p: Rank, op: MemOp, flags: Cell -> int)
    requires |s.ranks| == cf.n && r < cf.n && Todo(cf, prog, r, s.ranks[r]) == [op] + Todo(cf, prog, r, p)
    ensures Abs(cf, prog, s).queues[r] != [] && Abs(cf, prog, s).queues[r][0] == op
    ensures Abs(cf, prog, State(s.ranks[r := p], flags)) ==
      Streams(Abs(cf, prog, s).queues[r := Abs(cf, prog, s).queues[r][1..]], flags)
  {
    var queues := Abs(cf, prog, s).queues;
    assert queues[r][1..] == Todo(cf, prog, r, p);
    assert Abs(cf, prog, State(s.ranks[r := p], flags)).queues == queues[r := queues[r][1..]];
  }

  /** Any other step is the step of the stream, under the same condition. */
  lemma VisibleStep(cf: Config, prog: Programs, s: State, r: nat)
    requires AreProgrammed(cf, prog)
    requires Sized(cf, s) && r < cf.n && !Done(cf, s, r) && !Silent(cf, s, r)
    ensures Enabled(cf, s, r) <==> CanStep(Abs(cf, prog, s), r)
    ensures Enabled(cf, s, r) ==>
      Sized(cf, Step(cf, s, r)) && Abs(cf, prog, Step(cf, s, r)) == StepStream(Abs(cf, prog, s), r)
  {
    var p := s.ranks[r];
    var ops := OpAt(cf.script[p.k], cf.multicast, r, p.phase, p.i);
    assert |ops| == 1 && ops == [ops[0]];
    VisibleMoves(cf, s, r, ops[0]);
    VisibleTodo(cf, prog, r, p, ops[0]);
    AbsMoves(cf, prog, s, r, p.(i := p.i + 1), ops[0], Execute(s.flags, ops[0]));
  }

  /** Every run of the machine is a run of the streams. */
  lemma {:induction false} RunIsStreamRun(cf: Config, prog: Programs, s: State, sched: seq<nat>, t: State)
    returns (steps: seq<nat>)
    requires AreProgrammed(cf, prog)
    requires Sized(cf, s) && Runs(cf, s, sched, t)
    ensures |t.ranks| == cf.n && StreamRun(Abs(cf, prog, s), steps, Abs(cf, prog, t))
    decreases |sched|
  {
    if sched == [] {
      steps := [];
    } else {
      var r := sched[0];
      var u := Step(cf, s, r);
      if Silent(cf, s, r) {
        SilentStep(cf, prog, s, r);
        steps := RunIsStreamRun(cf, prog, u, sched[1..], t);
      } else {
        VisibleStep(cf, prog, s, r);
        var rest := RunIsStreamRun(cf, prog, u, sched[1..], t);
        steps := [r] + rest;
        assert steps[1..] == rest;
      }
    }
  }

  /** Rank `r` goes on to its next operation. */
  lemma {:induction false} Settle(cf: Config, prog: Programs, s: State, r: nat) returns (sched: seq<nat>, t: State)
    requires AreProgrammed(cf, prog)
    requires Sized(cf, s) && r < cf.n
    ensures Runs(cf, s, sched, t) && Sized(cf, t) && Abs(cf, prog, t) == Abs(cf, prog, s)
    ensures (forall q :: 0 <= q < cf.n && q != r ==> t.ranks[q] == s.ranks[q]) && (Done(cf, t, r) || !Silent(cf, t, r))
    decreases |cf.script| - s.ranks[r].k, PhasesLeft(s.ranks[r].phase), cf.n - s.ranks[r].i
  {
    if Done(cf, s, r) || !Silent(cf, s, r) {
      sched, t := [], s;
    } else {
      SilentStep(cf, prog, s, r);
      var rest;
      rest, t := Settle(cf, prog, Step(cf, s, r), r);
      RunsFirst(cf, s, r, rest, t);
      sched := [r] + rest;
    }
  }

  function PhasesLeft(phase: Phase): nat { match phase case Writing => 2 case Waiting => 1 case Resetting => 0 }

  /** Every step of the streams is a run of the machine. */
  lemma StreamStepIsRun(cf: Config, prog: Programs, s: State, r: nat) returns (sched: seq<nat>, t: State)
    requires AreProgrammed(cf, prog)
    requires Sized(cf, s) && CanStep(Abs(cf, prog, s), r)
    ensures Runs(cf, s, sched, t) && Sized(cf, t) && Abs(cf, prog, t) == StepStream(Abs(cf, prog, s), r)
  {
    var a, u := Settle(cf, prog, s, r);
    assert Abs(cf, prog, u).queues[r] == Todo(cf, prog, r, u.ranks[r]);
    VisibleStep(cf, prog, u, r);
    t := Step(cf, u, r);
    assert Runs(cf, t, [], t) && [r][1..] == [];
    RunsConcat(cf, s, a, u, [r], t);
    sched := a + [r];
  }

  lemma {:induction false} StreamRunIsRun(cf: Config, prog: Programs, s: State, steps: seq<nat>, st: Streams)
    returns (sched: seq<nat>, t: State)
    requires AreProgrammed(cf, prog)
    requires Sized(cf, s) && StreamRun(Abs(cf, prog, s), steps, st)
    ensures Runs(cf, s, sched, t) && Sized(cf, t) && Abs(cf, prog, t) == st
    decreases |steps|
  {
    if steps == [] {
      sched, t := [], s;
    } else {
      var a, u := StreamStepIsRun(cf, prog, s, steps[0]);
      var b;
      b, t := StreamRunIsRun(cf, prog, u, steps[1..], st);
      RunsConcat(cf, s, a, u, b, t);
      sched := a + b;
    }
  }

  // ---------------------------------------------------------------- results

  /** The streams as the host has prepared them, and all flags zero. */
  ghost predicate Prepared(cf: Config, st: Streams)
  {
    && |st.queues| == cf.n && (forall r: nat :: r < cf.n ==> st.queues[r] == Program(cf, r, 0))
    && forall c :: st.flags(c) == 0
  }

  predicate Drained(st: Streams)
  {
    forall r :: 0 <= r < |st.queues| ==> st.queues[r] == []
  }

  lemma PreparedIs(cf: Config, st: Streams) returns (prog: Programs, s: State)
    requires Prepared(cf, st)
    ensures AreProgrammed(cf, prog) && Initial(cf, s) && Sized(cf, s) && Abs(cf, prog, s) == st
  {
    prog := (r: nat, k: nat) => Program(cf, r, k);
    forall r: nat, k: nat ensures ProgramAt(cf, prog, r, k) { }
    s := State(seq(cf.n, _ => Rank(0, Writing, 0)), st.flags);
    forall r: nat | r < cf.n ensures Todo(cf, prog, r, s.ranks[r]) == st.queues[r] { TodoAtStart(cf, prog, r, 0); }
    assert Abs(cf, prog, s).queues == st.queues;
  }

  /** All streams can be executed to the end. */
  lemma StreamsFinish(cf: Config, st: Streams) returns (steps: seq<nat>, st': Streams)
    requires Prepared(cf, st)
    ensures StreamRun(st, steps, st') && Drained(st')
  {
    var prog, s := PreparedIs(cf, st);
    var sched, t := LockStep(cf, s, |cf.script|);
    steps := RunIsStreamRun(cf, prog, s, sched, t);
    st' := Abs(cf, prog, t);
    forall r | 0 <= r < cf.n ensures st'.queues[r] == [] { assert t.ranks[r] == Rank(|cf.script|, Writing, 0); }
  }

  lemma {:induction false} SettleAll(cf: Config, prog: Programs, s: State, n: nat) returns (sched: seq<nat>, t: State)
    requires AreProgrammed(cf, prog)
    requires Sized(cf, s) && n <= cf.n
    ensures Runs(cf, s, sched, t) && Sized(cf, t) && Abs(cf, prog, t) == Abs(cf, prog, s)
    ensures forall q: nat :: q < n ==> Done(cf, t, q) || !Silent(cf, t, q)
  {
    if n == 0 {
      sched, t := [], s;
    } else {
      var a, u := SettleAll(cf, prog, s, n - 1);
      var b;
      b, t := Settle(cf, prog, u, n - 1);
      RunsConcat(cf, s, a, u, b, t);
      sched := a + b;
      forall q: nat | q < n ensures Done(cf, t, q) || !Silent(cf, t, q) {
        assert q < n - 1 ==> t.ranks[q] == u.ranks[q] && (Done(cf, u, q) || !Silent(cf, u, q));
      }
    }
  }

  /** If the script is safe, the streams never get stuck, in whatever order their operations are executed. */
  lemma StreamsGoOn(cf: Config, st: Streams, steps: seq<nat>, st': Streams) returns (r: nat)
    requires Safe(cf.script) && Prepared(cf, st) && StreamRun(st, steps, st') && !Drained(st')
    ensures CanStep(st', r)
  {
    var prog, s := PreparedIs(cf, st);
    var a, u := StreamRunIsRun(cf, prog, s, steps, st');
    var b, t := SettleAll(cf, prog, u, cf.n);
    RunsConcat(cf, s, a, u, b, t);
    var q :| 0 <= q < |st'.queues| && st'.queues[q] != [];
    assert Abs(cf, prog, t).queues[q] == Todo(cf, prog, q, t.ranks[q]);
    assert !Done(cf, t, q);
    r := NoDeadlock(cf, s, a + b, t, q);
    assert Done(cf, t, r) || !Silent(cf, t, r);
    VisibleStep(cf, prog, t, r);
    assert CanStep(Abs(cf, prog, t), r);
  }

  /** In particular the streams of collectives run directly, prepared by `calls` calls on each rank. */
  lemma EagerStreamsGoOn(n: nat, multicast: bool, calls: nat, st: Streams, steps: seq<nat>, st': Streams)
    returns (r: nat)
    requires Prepared(Config(n, Block(0, calls, false), multicast), st)
    requires StreamRun(st, steps, st') && !Drained(st')
    ensures CanStep(st', r)
  {
    var sc := Block(0, calls, false);
    forall k: nat | k < |sc| ensures sc[k] == SyncOf(k, false) { }
    EagerSafe(sc, (k: nat) => false);
    r := StreamsGoOn(Config(n, sc, multicast), st, steps, st');
  }

  // ---------------------------------------------------------------- what the calls enqueue

  lemma ProgramGrows(n: nat, multicast: bool, sc: Script, sync: Sync, r: nat)
    ensures Program(Config(n, sc + [sync], multicast), r, 0) ==
      Program(Config(n, sc, multicast), r, 0) + ExpandAll(SyncOps(sync, multicast, r, n), n)
  {
    var f, g := SyncStreams(n, sc, multicast, r), SyncStreams(n, sc + [sync], multicast, r);
    SameStreams(n, multicast, sc, sync, r);
    FlatJoins(f, g, |sc|, ExpandAll(SyncOps(sync, multicast, r, n), n));
  }

  lemma SameStreams(n: nat, multicast: bool, sc: Script, sync: Sync, r: nat)
    ensures var f, g := SyncStreams(n, sc, multicast, r), SyncStreams(n, sc + [sync], multicast, r);
      (forall i: nat :: i < |sc| ==> f(i) == g(i)) && g(|sc|) == ExpandAll(SyncOps(sync, multicast, r, n), n)
  {
    assert (sc + [sync])[|sc|] == sync;
  }

  lemma FlatJoins(f: nat -> seq<MemOp>, g: nat -> seq<MemOp>, m: nat, last: seq<MemOp>)
    requires (forall i: nat :: i < m ==> f(i) == g(i)) && g(m) == last
    ensures Flat(g, 0, m + 1) == Flat(f, 0, m) + last
  {
    FlatGrows(g, 0, m);
    FlatSame(f, g, 0, m);
  }

  /** What `m` calls have enqueued. */
  ghost predicate Enqueued(stream: seq<MemOp>, n: nat, rank: nat, multicast: bool, m: nat)
  {
    ExpandAll(stream, n) == Program(Config(n, Block(0, m, false), multicast), rank, 0)
  }

  lemma EnqueueNext(stream: seq<MemOp>, ops: seq<MemOp>, n: nat, rank: nat, multicast: bool, m: nat)
    requires Enqueued(stream, n, rank, multicast, m) && ops == SyncOps(SyncOf(m, false), multicast, rank, n)
    ensures Enqueued(stream + ops, n, rank, multicast, m + 1)
  {
    ExpandConcat(stream, ops, n);
    ProgramGrows(n, multicast, Block(0, m, false), SyncOf(m, false), rank);
    assert Block(0, m + 1, false) == Block(0, m, false) + [SyncOf(m, false)];
  }

  /** A rank that prepares `calls` syncs, none of them captured, enqueues the stream of its program. */
  method Enqueue(n: nat, rank: nat, multicast: bool, calls: nat) returns (stream: seq<MemOp>)
    requires rank < n
    ensures Enqueued(stream, n, rank, multicast, calls)
  {
    var coll := new CeColl(n, rank, multicast);
    stream := [];
    for m := 0 to calls
      invariant coll.Valid() && fresh(coll) && coll.calls == m
      invariant coll.n == n && coll.rank == rank && coll.multicast == multicast
      invariant Enqueued(stream, n, rank, multicast, m)
    {
      var ops := coll.MemOpSync(false);
      EnqueueNext(stream, ops, n, rank, multicast, m);
      stream := stream + ops;
    }
  }
}
