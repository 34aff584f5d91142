/**
 * Copy-engine synchronisation (nccl/src/ce_coll.cc): `ncclMemOpSync` with its unicast and
 * multicast preparation.  In a sync every rank writes a value into its flag on the other ranks,
 * waits until the flags of all others on its own side equal that value, and, if the sync was
 * captured in a graph, resets the flags to zero.  A sync uses one of two flag arrays.
 *
 * A script lists the syncs in the order in which the device executes them; it is the same for all
 * ranks.  The scheme works (barrier, no wait misses its flag, no deadlock) in every run exactly
 * for the scripts in which consecutive syncs use different arrays and no sync awaits the value
 * that earlier syncs left behind.  Sequence number and array advance when a sync is prepared by
 * the host, so a graph that is launched again repeats its arrays and values.
 */
module CeSync {
  import opened Arith

  const GRAPH_SYNC_VALUE: nat := 1

  /** The value a sync writes and awaits, whether it resets the flags afterwards, and its array. */
  datatype Sync = Sync(value: nat, reset: bool, complete: bool)

  type Script = seq<Sync>

  /** The last of the first `w` syncs that uses the given array, if any. */
  function Latest(sc: Script, complete: bool, w: nat): (k: int)
    requires w <= |sc|
    ensures -1 <= k < w && (0 <= k ==> sc[k].complete == complete)
  {
    if w == 0 then -1 else if sc[w - 1].complete == complete then w - 1 else Latest(sc, complete, w - 1)
  }

  /** What a flag holds after `w` writes, of which those before `z` have been reset where asked for. */
  function Content(sc: Script, complete: bool, w: nat, z: nat): nat
    requires w <= |sc|
  {
    var k := Latest(sc, complete, w);
    if k < 0 || (sc[k].reset && k < z) then 0 else sc[k].value
  }

  /** What is left in a flag of the array of sync `k` when no rank has reached sync `k` yet. */
  function Stale(sc: Script, k: nat): nat
    requires k < |sc|
  {
    Content(sc, sc[k].complete, k, k)
  }

  predicate Distinguished(sc: Script, k: nat)
    requires k < |sc|
  {
    Stale(sc, k) != sc[k].value
  }

  /** Sync `k` uses another array than the one before it. */
  predicate Alternates(sc: Script, k: nat)
    requires k < |sc|
  {
    k == 0 || sc[k].complete != sc[k - 1].complete
  }

  predicate SafeAt(sc: Script, k: nat)
    requires k < |sc|
  {
    Alternates(sc, k) && Distinguished(sc, k)
  }

  predicate Safe(sc: Script)
  {
    forall k: nat :: k < |sc| ==> SafeAt(sc, k)
  }

  datatype Phase = Writing | Waiting | Resetting

  /** A rank is in sync `k`, before the operation on rank `i` of a phase. */
  datatype Rank = Rank(k: nat, phase: Phase, i: nat)

  /** The flag of rank `src` in the memory of rank `dst`. */
  datatype Cell = Cell(complete: bool, dst: nat, src: nat)

  datatype State = State(ranks: seq<Rank>, flags: Cell -> int)

  /** Number of ranks, script, and whether flags are written by multicast (own flag included). */
  datatype Config = Config(n: nat, script: Script, multicast: bool)

  function CellOf(sc: Script, k: nat, dst: nat, src: nat): Cell
    requires k < |sc|
  {
    Cell(sc[k].complete, dst, src)
  }

  predicate Sized(cf: Config, s: State)
  {
    |s.ranks| == cf.n && forall r :: 0 <= r < cf.n ==> s.ranks[r].k <= |cf.script| && s.ranks[r].i <= cf.n
  }

  predicate Done(cf: Config, s: State, r: nat)
    requires Sized(cf, s) && r < cf.n
  {
    s.ranks[r].k == |cf.script|
  }

  /** Rank `r` has a next operation and, if that is a wait, the flag has the awaited value. */
  predicate Enabled(cf: Config, s: State, r: nat)
  {
    && Sized(cf, s) && r < cf.n && !Done(cf, s, r)
    && var p := s.ranks[r];
       p.phase.Waiting? && p.i < cf.n && p.i != r ==>
         s.flags(CellOf(cf.script, p.k, r, p.i)) == cf.script[p.k].value
  }

  /** The next operation of rank `r`; moving on to the next phase or sync is a step of its own. */
  function Step(cf: Config, s: State, r: nat): State
    requires Enabled(cf, s, r)
  {
    var p := s.ranks[r];
    var sync := cf.script[p.k];
    if p.i < cf.n then
      var moved := s.ranks[r := p.(i := p.i + 1)];
      match p.phase
      case Writing =>
        State(moved,
          if p.i != r || cf.multicast then Upd(s.flags, CellOf(cf.script, p.k, p.i, r), sync.value) else s.flags)
      case Waiting => State(moved, s.flags)
      case Resetting => State(moved, if sync.reset then Upd(s.flags, CellOf(cf.script, p.k, r, p.i), 0) else s.flags)
    else
      var next := match p.phase
        case Writing => Rank(p.k, Waiting, 0)
        case Waiting => Rank(p.k, Resetting, 0)
        case Resetting => Rank(p.k + 1, Writing, 0);
      State(s.ranks[r := next], s.flags)
  }

  ghost predicate Initial(cf: Config, s: State)
  {
    && |s.ranks| == cf.n && (forall r :: 0 <= r < cf.n ==> s.ranks[r] == Rank(0, Writing, 0))
    && forall c :: s.flags(c) == 0
  }

  // ---------------------------------------------------------------- what a rank has done

  /** How many syncs have written their flag to rank `d`. */
  function Written(p: Rank, d: nat): nat { p.k + if p.phase.Writing? && p.i <= d then 0 else 1 }

  /** How many syncs have passed their wait for rank `d`. */
  function Passed(p: Rank, d: nat): nat
  {
    p.k + if p.phase.Resetting? || (p.phase.Waiting? && d < p.i) then 1 else 0
  }

  /** How many syncs are over as far as the reset of the flag of rank `d` goes. */
  function Reset(p: Rank, d: nat): nat { p.k + if p.phase.Resetting? && d < p.i then 1 else 0 }

  // ---------------------------------------------------------------- invariant

  /** A finished rank stands before the first operation behind the script. */
  predicate RankOk(cf: Config, p: Rank)
  {
    p.k <= |cf.script| && p.i <= cf.n && (p.k == |cf.script| ==> p == Rank(p.k, Writing, 0))
  }

  /** Rank `r` passes a wait for rank `d` only after the write it waits for, and sees what it should. */
  predicate PairOk(cf: Config, s: State, r: nat, d: nat)
  {
    && r < |s.ranks| && d < |s.ranks| && Written(s.ranks[d], r) <= |cf.script|
    && Passed(s.ranks[r], d) <= Written(s.ranks[d], r)
    && (forall b :: s.flags(Cell(b, r, d)) == Content(cf.script, b, Written(s.ranks[d], r), Reset(s.ranks[r], d)))
  }

  ghost predicate Inv(cf: Config, s: State)
  {
    && |s.ranks| == cf.n && (forall r :: 0 <= r < cf.n ==> RankOk(cf, s.ranks[r]))
    && forall r: nat, d: nat :: r < cf.n && d < cf.n && r != d ==> PairOk(cf, s, r, d)
  }

  /** Nobody is two writes ahead of a wait. */
  lemma Close(cf: Config, s: State, r: nat, d: nat)
    requires Inv(cf, s) && r < cf.n && d < cf.n && r != d
    ensures Written(s.ranks[d], r) <= s.ranks[r].k + 2
    ensures s.ranks[r].k <= s.ranks[d].k + 1
  {
    assert PairOk(cf, s, d, r) && PairOk(cf, s, r, d);
  }

  // ---------------------------------------------------------------- steps

  /** The sync that last wrote the array of sync `k`, soon after sync `k`. */
  lemma LatestStep(sc: Script, k: nat, w: nat)
    requires k < w <= k + 2 && w <= |sc| && (k + 1 < w ==> Alternates(sc, k + 1))
    ensures Latest(sc, sc[k].complete, w) == k
  {
    assert w == k + 2 ==> Latest(sc, sc[k].complete, w) == Latest(sc, sc[k].complete, k + 1);
  }

  /** One more write changes its own array and leaves the other alone. */
  lemma WriteContent(sc: Script, k: nat, z: nat, b: bool)
    requires z <= k < |sc|
    ensures Content(sc, b, k + 1, z) == if b == sc[k].complete then sc[k].value else Content(sc, b, k, z)
  {
  }

  /** A reset changes its own array, and only if the sync asks for it. */
  lemma ResetContent(sc: Script, k: nat, w: nat, b: bool)
    requires k < w <= k + 2 && w <= |sc| && (k + 1 < w ==> Alternates(sc, k + 1))
    ensures Content(sc, b, w, k + 1) == if b == sc[k].complete && sc[k].reset then 0 else Content(sc, b, w, k)
  {
    if b == sc[k].complete { LatestStep(sc, k, w); } else { OtherLatest(sc, b, k, w); }
  }

  /** The last write to the other array is not that of sync `k`. */
  lemma OtherLatest(sc: Script, b: bool, k: nat, w: nat)
    requires k < w <= k + 2 && w <= |sc| && b != sc[k].complete
    ensures Latest(sc, b, w) != k
  {
    assert w == k + 2 ==> Latest(sc, b, w) == k + 1 || Latest(sc, b, w) == Latest(sc, b, k + 1);
  }

  /** Steps that do not touch the flag of a pair leave the pair alone. */
  predicate SameFlags(s: State, t: State, r: nat, d: nat)
  {
    forall b :: t.flags(Cell(b, r, d)) == s.flags(Cell(b, r, d))
  }

  /** The step of rank `d` seen by the pair in which `d` writes and `r` waits: the write itself. */
  lemma WriteStep(cf: Config, s: State, r: nat, d: nat)
    requires Sized(cf, s) && PairOk(cf, s, r, d) && Enabled(cf, s, d) && r < cf.n && r != d
    requires s.ranks[d].phase.Writing? && s.ranks[d].i == r
    ensures PairOk(cf, Step(cf, s, d), r, d)
  {
    var p, t := s.ranks[d], Step(cf, s, d);
    forall b ensures t.flags(Cell(b, r, d)) == Content(cf.script, b, p.k + 1, Reset(s.ranks[r], d)) {
      WriteContent(cf.script, p.k, Reset(s.ranks[r], d), b);
    }
  }

  /** And all other steps of rank `d`. */
  lemma WriterStep(cf: Config, s: State, r: nat, d: nat)
    requires Sized(cf, s) && PairOk(cf, s, r, d) && Enabled(cf, s, d) && r < cf.n && r != d
    requires s.ranks[d].phase.Writing? ==> s.ranks[d].i != r
    ensures PairOk(cf, Step(cf, s, d), r, d)
  {
    assert SameFlags(s, Step(cf, s, d), r, d);
  }

  /** Nothing that is left in an array before sync `k` depends on resets after it. */
  lemma ContentSettled(sc: Script, b: bool, k: nat, z: nat)
    requires k <= |sc| && k <= z
    ensures Content(sc, b, k, z) == Content(sc, b, k, k)
  {
  }

  /** What a waiting rank finds when the awaited write has not happened: the stale value. */
  lemma SeesStale(cf: Config, s: State, r: nat, d: nat)
    requires Inv(cf, s) && r < cf.n && d < cf.n && r != d && s.ranks[r].k < |cf.script|
    requires Written(s.ranks[d], r) == s.ranks[r].k
    ensures s.flags(CellOf(cf.script, s.ranks[r].k, r, d)) == Stale(cf.script, s.ranks[r].k)
  {
    assert PairOk(cf, s, r, d);
    var k := s.ranks[r].k;
    ContentSettled(cf.script, cf.script[k].complete, k, Reset(s.ranks[r], d));
  }

  /** And when it has happened: the awaited value, which nobody overwrites before it is seen. */
  lemma SeesValue(cf: Config, s: State, r: nat, d: nat)
    requires Inv(cf, s) && r < cf.n && d < cf.n && r != d && Safe(cf.script) && s.ranks[r].k < |cf.script|
    requires s.ranks[r].phase.Waiting? && s.ranks[r].k < Written(s.ranks[d], r)
    ensures s.flags(CellOf(cf.script, s.ranks[r].k, r, d)) == cf.script[s.ranks[r].k].value
  {
    assert PairOk(cf, s, r, d);
    Close(cf, s, r, d);
    var k, w := s.ranks[r].k, Written(s.ranks[d], r);
    assert k + 1 < |cf.script| ==> SafeAt(cf.script, k + 1);
    LatestStep(cf.script, k, w);
  }

  /** A wait is passed only after its write, because the stale value is another one. */
  lemma WaitStep(cf: Config, s: State, r: nat, d: nat)
    requires Inv(cf, s) && Enabled(cf, s, r) && d < cf.n && r != d && Distinguished(cf.script, s.ranks[r].k)
    requires s.ranks[r].phase.Waiting? && s.ranks[r].i == d
    ensures s.ranks[r].k < Written(s.ranks[d], r)
  {
    assert PairOk(cf, s, r, d);
    if Written(s.ranks[d], r) == s.ranks[r].k { SeesStale(cf, s, r, d); }
  }

  /** The step of rank `r` seen by the same pair: the reset. */
  lemma ResetStep(cf: Config, s: State, r: nat, d: nat)
    requires Inv(cf, s) && Enabled(cf, s, r) && d < cf.n && r != d && Safe(cf.script)
    requires s.ranks[r].phase.Resetting? && s.ranks[r].i == d
    ensures PairOk(cf, Step(cf, s, r), r, d)
  {
    var p, t, w := s.ranks[r], Step(cf, s, r), Written(s.ranks[d], r);
    assert PairOk(cf, s, r, d);
    Close(cf, s, r, d);
    assert p.k + 1 < |cf.script| ==> SafeAt(cf.script, p.k + 1);
    forall b ensures t.flags(Cell(b, r, d)) == Content(cf.script, b, w, p.k + 1) {
      ResetContent(cf.script, p.k, w, b);
    }
  }

  /** And all other steps of rank `r`. */
  lemma WaiterStep(cf: Config, s: State, r: nat, d: nat)
    requires Sized(cf, s) && PairOk(cf, s, r, d) && Enabled(cf, s, r) && d < cf.n && r != d
    requires s.ranks[r].phase.Resetting? ==> s.ranks[r].i != d
    requires s.ranks[r].phase.Waiting? && s.ranks[r].i == d ==> s.ranks[r].k < Written(s.ranks[d], r)
    ensures PairOk(cf, Step(cf, s, r), r, d)
  {
    assert SameFlags(s, Step(cf, s, r), r, d);
  }

  lemma PairStep(cf: Config, s: State, u: nat, r: nat, d: nat)
    requires Inv(cf, s) && Enabled(cf, s, u) && Safe(cf.script) && r < cf.n && d < cf.n && r != d
    ensures PairOk(cf, Step(cf, s, u), r, d)
  {
    assert PairOk(cf, s, r, d) && SafeAt(cf.script, s.ranks[u].k);
    var p := s.ranks[u];
    if u == d {
      if p.phase.Writing? && p.i == r { WriteStep(cf, s, r, d); } else { WriterStep(cf, s, r, d); }
    } else if u == r {
      if p.phase.Resetting? && p.i == d {
        ResetStep(cf, s, r, d);
      } else {
        if p.phase.Waiting? && p.i == d { WaitStep(cf, s, r, d); }
        WaiterStep(cf, s, r, d);
      }
    } else {
      assert SameFlags(s, Step(cf, s, u), r, d);
    }
  }

  /** Every operation of every rank keeps the invariant. */
  lemma StepKeeps(cf: Config, s: State, u: nat)
    requires Inv(cf, s) && Enabled(cf, s, u) && Safe(cf.script)
    ensures Inv(cf, Step(cf, s, u))
  {
    var t := Step(cf, s, u);
    forall r: nat, d: nat | r < cf.n && d < cf.n && r != d ensures PairOk(cf, t, r, d) {
      PairStep(cf, s, u, r, d);
    }
  }

  // ---------------------------------------------------------------- runs

  /** `t` is reached from `s` by the steps of the ranks in `sched`. */
  ghost predicate Runs(cf: Config, s: State, sched: seq<nat>, t: State)
    decreases |sched|
  {
    if sched == [] then s == t
    else Enabled(cf, s, sched[0]) && Runs(cf, Step(cf, s, sched[0]), sched[1..], t)
  }

  lemma {:induction false} RunsInv(cf: Config, s: State, sched: seq<nat>, t: State)
    requires Safe(cf.script) && Inv(cf, s) && Runs(cf, s, sched, t)
    ensures Inv(cf, t)
    decreases |sched|
  {
    if sched != [] {
      StepKeeps(cf, s, sched[0]);
      RunsInv(cf, Step(cf, s, sched[0]), sched[1..], t);
    }
  }

  lemma InitialInv(cf: Config, s: State)
    requires Initial(cf, s)
    ensures Inv(cf, s)
  {
  }

  /** Rank `d` has issued sync `k` towards rank `r`. */
  predicate Issued(s: State, d: nat, r: nat, k: nat)
    requires d < |s.ranks|
  {
    k < Written(s.ranks[d], r)
  }

  /** If any rank has finished sync `k`, every other rank has issued it to that rank. */
  ghost predicate Barrier(s: State)
  {
    forall r: nat, d: nat, k: nat :: r < |s.ranks| && d < |s.ranks| && r != d && k < s.ranks[r].k ==> Issued(s, d, r, k)
  }

  /** Rank `r` is at a wait whose flag has been written, yet cannot pass it. */
  predicate MissedWait(cf: Config, s: State, r: nat)
    requires Sized(cf, s)
  {
    && r < cf.n && !Done(cf, s, r) && !Enabled(cf, s, r)
    && var p := s.ranks[r]; p.i < cf.n && Issued(s, p.i, r, p.k)
  }

  /** Some rank has not finished, and none can go on. */
  ghost predicate Deadlock(cf: Config, s: State)
    requires Sized(cf, s)
  {
    (exists r: nat :: r < cf.n && !Done(cf, s, r)) && forall r: nat :: r < cf.n ==> !Enabled(cf, s, r)
  }

  /** What copy-engine synchronisation is for. */
  ghost predicate Sound(cf: Config, s: State)
  {
    Sized(cf, s) && Barrier(s) && (forall r: nat :: !MissedWait(cf, s, r)) && !Deadlock(cf, s)
  }

  /** The syncs are a barrier in every run, and ranks stay within one sync of each other. */
  lemma BarrierSafe(cf: Config, s: State, sched: seq<nat>, t: State)
    requires Safe(cf.script) && Initial(cf, s) && Runs(cf, s, sched, t)
    ensures Barrier(t)
    ensures forall r, d :: 0 <= r < |t.ranks| && 0 <= d < |t.ranks| ==> t.ranks[r].k <= t.ranks[d].k + 1
  {
    InitialInv(cf, s);
    RunsInv(cf, s, sched, t);
    forall r: nat, d: nat | r < cf.n && d < cf.n && r != d
      ensures t.ranks[r].k <= Written(t.ranks[d], r) && t.ranks[r].k <= t.ranks[d].k + 1 {
      assert PairOk(cf, t, r, d);
    }
  }

  /** In every reachable state a wait whose flag has been written can be passed. */
  lemma WaitNeverMissed(cf: Config, s: State, sched: seq<nat>, t: State, r: nat)
    requires Safe(cf.script) && Initial(cf, s) && Runs(cf, s, sched, t)
    ensures Sized(cf, t) && !MissedWait(cf, t, r)
  {
    InitialInv(cf, s);
    RunsInv(cf, s, sched, t);
    if r < cf.n && !Done(cf, t, r) {
      var p := t.ranks[r];
      if p.phase.Waiting? && p.i < cf.n && p.i != r && Issued(t, p.i, r, p.k) { SeesValue(cf, t, r, p.i); }
    }
  }

  lemma {:induction false} Slowest(s: State, m: nat) returns (r: nat)
    requires 0 < m <= |s.ranks|
    ensures r < m && forall q :: 0 <= q < m ==> s.ranks[r].k <= s.ranks[q].k
  {
    r := m - 1;
    if 1 < m {
      var q := Slowest(s, m - 1);
      if s.ranks[q].k < s.ranks[r].k { r := q; }
    }
  }

  /** And some rank can go on until all have finished. */
  lemma NoDeadlock(cf: Config, s: State, sched: seq<nat>, t: State, u: nat) returns (r: nat)
    requires Safe(cf.script) && Initial(cf, s) && Runs(cf, s, sched, t)
    requires Sized(cf, t) && u < cf.n && !Done(cf, t, u)
    ensures Enabled(cf, t, r)
  {
    InitialInv(cf, s);
    RunsInv(cf, s, sched, t);
    r := Slowest(t, cf.n);
    var p := t.ranks[r];
    if p.phase.Waiting? && p.i < cf.n && p.i != r {
      if Issued(t, p.i, r, p.k) { SeesValue(cf, t, r, p.i); } else { r := p.i; }
    }
  }
}
