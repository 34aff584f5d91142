/**
 * The exact condition for copy-engine synchronisation: scripts that are not safe fail in some run.
 * Runs are built rank by rank and phase by phase; every sync can be reached in lockstep, and from
 * there a bad interleaving of the sync at fault, or of the one before it, does the damage.
 */
module CeSyncExact {
  import opened Arith
  import opened CeSync

  // ---------------------------------------------------------------- building runs

  lemma {:induction false} RunsConcat(cf: Config, s: State, a: seq<nat>, t: State, b: seq<nat>, u: State)
    requires Runs(cf, s, a, t) && Runs(cf, t, b, u)
    ensures Runs(cf, s, a + b, u)
    decreases |a|
  {
    if a == [] {
      assert a + b == b;
    } else {
      RunsConcat(cf, Step(cf, s, a[0]), a[1..], t, b, u);
      assert (a + b)[0] == a[0] && (a + b)[1..] == a[1..] + b;
    }
  }

  lemma RunsFirst(cf: Config, s: State, r: nat, rest: seq<nat>, t: State)
    requires Enabled(cf, s, r) && Runs(cf, Step(cf, s, r), rest, t)
    ensures Runs(cf, s, [r] + rest, t)
  {
    assert ([r] + rest)[1..] == rest;
  }

  /** The cells that rank `r` writes in sync `k` from rank `i` on. */
  predicate InWrite(cf: Config, c: Cell, r: nat, k: nat, i: nat)
    requires k < |cf.script|
  {
    c.complete == cf.script[k].complete && c.src == r && i <= c.dst < cf.n && (c.dst != r || cf.multicast)
  }

  predicate InReset(cf: Config, c: Cell, r: nat, k: nat, i: nat)
    requires k < |cf.script|
  {
    c.complete == cf.script[k].complete && c.dst == r && i <= c.src < cf.n && cf.script[k].reset
  }

  /** Rank `r` alone performs its writes. */
  lemma {:induction false} WritePhase(cf: Config, s: State, r: nat, k: nat, i: nat) returns (sched: seq<nat>, t: State)
    requires Sized(cf, s) && r < cf.n && k < |cf.script| && i <= cf.n && s.ranks[r] == Rank(k, Writing, i)
    ensures Runs(cf, s, sched, t) && Sized(cf, t) && t.ranks == s.ranks[r := Rank(k, Waiting, 0)]
    ensures forall c :: t.flags(c) == if InWrite(cf, c, r, k, i) then cf.script[k].value else s.flags(c)
    decreases cf.n - i
  {
    var u := Step(cf, s, r);
    if i == cf.n {
      sched, t := [r], u;
      assert Runs(cf, u, [], t) && [r][1..] == [];
    } else {
      var rest;
      rest, t := WritePhase(cf, u, r, k, i + 1);
      RunsFirst(cf, s, r, rest, t);
      sched := [r] + rest;
    }
  }

  /** Rank `r` alone passes its waits when all flags already have the awaited value. */
  lemma {:induction false} WaitPhase(cf: Config, s: State, r: nat, k: nat, i: nat) returns (sched: seq<nat>, t: State)
    requires Sized(cf, s) && r < cf.n && k < |cf.script| && i <= cf.n && s.ranks[r] == Rank(k, Waiting, i)
    requires forall d: nat :: d < cf.n && d != r ==> s.flags(CellOf(cf.script, k, r, d)) == cf.script[k].value
    ensures Runs(cf, s, sched, t) && Sized(cf, t)
    ensures t.ranks == s.ranks[r := Rank(k, Resetting, 0)] && t.flags == s.flags
    decreases cf.n - i
  {
    var u := Step(cf, s, r);
    if i == cf.n {
      sched, t := [r], u;
      assert Runs(cf, u, [], t) && [r][1..] == [];
    } else {
      var rest;
      rest, t := WaitPhase(cf, u, r, k, i + 1);
      RunsFirst(cf, s, r, rest, t);
      sched := [r] + rest;
    }
  }

  lemma {:induction false} ResetPhase(cf: Config, s: State, r: nat, k: nat, i: nat) returns (sched: seq<nat>, t: State)
    requires Sized(cf, s) && r < cf.n && k < |cf.script| && i <= cf.n && s.ranks[r] == Rank(k, Resetting, i)
    ensures Runs(cf, s, sched, t) && Sized(cf, t) && t.ranks == s.ranks[r := Rank(k + 1, Writing, 0)]
    ensures forall c :: t.flags(c) == if InReset(cf, c, r, k, i) then 0 else s.flags(c)
    decreases cf.n - i
  {
    var u := Step(cf, s, r);
    if i == cf.n {
      sched, t := [r], u;
      assert Runs(cf, u, [], t) && [r][1..] == [];
    } else {
      var rest;
      rest, t := ResetPhase(cf, u, r, k, i + 1);
      RunsFirst(cf, s, r, rest, t);
      sched := [r] + rest;
    }
  }

  /** All ranks from `r` on perform their writes, one after the other. */
  lemma {:induction false} AllWrite(cf: Config, s: State, k: nat, r: nat) returns (sched: seq<nat>, t: State)
    requires Sized(cf, s) && r <= cf.n && k < |cf.script|
    requires forall q :: r <= q < cf.n ==> s.ranks[q] == Rank(k, Writing, 0)
    ensures Runs(cf, s, sched, t) && Sized(cf, t)
    ensures forall q :: 0 <= q < cf.n ==> t.ranks[q] == if r <= q then Rank(k, Waiting, 0) else s.ranks[q]
    ensures forall c ::
      t.flags(c) == if r <= c.src < cf.n && InWrite(cf, c, c.src, k, 0) then cf.script[k].value else s.flags(c)
    decreases cf.n - r
  {
    if r == cf.n {
      sched, t := [], s;
    } else {
      var a, u := WritePhase(cf, s, r, k, 0);
      var b;
      b, t := AllWrite(cf, u, k, r + 1);
      RunsConcat(cf, s, a, u, b, t);
      sched := a + b;
    }
  }

  lemma {:induction false} AllWait(cf: Config, s: State, k: nat, r: nat) returns (sched: seq<nat>, t: State)
    requires Sized(cf, s) && r <= cf.n && k < |cf.script|
    requires forall q :: r <= q < cf.n ==> s.ranks[q] == Rank(k, Waiting, 0)
    requires forall q: nat, d: nat :: q < cf.n && d < cf.n && d != q ==>
      s.flags(CellOf(cf.script, k, q, d)) == cf.script[k].value
    ensures Runs(cf, s, sched, t) && Sized(cf, t) && t.flags == s.flags
    ensures forall q :: 0 <= q < cf.n ==> t.ranks[q] == if r <= q then Rank(k, Resetting, 0) else s.ranks[q]
    decreases cf.n - r
  {
    if r == cf.n {
      sched, t := [], s;
    } else {
      var a, u := WaitPhase(cf, s, r, k, 0);
      var b;
      b, t := AllWait(cf, u, k, r + 1);
      RunsConcat(cf, s, a, u, b, t);
      sched := a + b;
    }
  }

  lemma {:induction false} AllReset(cf: Config, s: State, k: nat, r: nat) returns (sched: seq<nat>, t: State)
    requires Sized(cf, s) && r <= cf.n && k < |cf.script|
    requires forall q :: r <= q < cf.n ==> s.ranks[q] == Rank(k, Resetting, 0)
    ensures Runs(cf, s, sched, t) && Sized(cf, t)
    ensures forall q :: 0 <= q < cf.n ==> t.ranks[q] == if r <= q then Rank(k + 1, Writing, 0) else s.ranks[q]
    ensures forall c :: t.flags(c) == if r <= c.dst < cf.n && InReset(cf, c, c.dst, k, 0) then 0 else s.flags(c)
    decreases cf.n - r
  {
    if r == cf.n {
      sched, t := [], s;
    } else {
      var a, u := ResetPhase(cf, s, r, k, 0);
      var b;
      b, t := AllReset(cf, u, k, r + 1);
      RunsConcat(cf, s, a, u, b, t);
      sched := a + b;
    }
  }

  /** Both arrays hold what the syncs before `k` left. */
  predicate CleanPair(cf: Config, s: State, k: nat, r: nat, d: nat)
    requires k <= |cf.script|
  {
    forall b :: s.flags(Cell(b, r, d)) == Content(cf.script, b, k, k)
  }

  /** All ranks are about to start sync `k`. */
  ghost predicate Clean(cf: Config, s: State, k: nat)
  {
    && k <= |cf.script| && |s.ranks| == cf.n && (forall r :: 0 <= r < cf.n ==> s.ranks[r] == Rank(k, Writing, 0))
    && forall r: nat, d: nat :: r < cf.n && d < cf.n && r != d ==> CleanPair(cf, s, k, r, d)
  }

  /** All ranks write and pass sync `k` together. */
  lemma TogetherToReset(cf: Config, s: State, k: nat) returns (sched: seq<nat>, t: State)
    requires Clean(cf, s, k) && k < |cf.script|
    ensures Runs(cf, s, sched, t) && Sized(cf, t)
    ensures forall r :: 0 <= r < cf.n ==> t.ranks[r] == Rank(k, Resetting, 0)
    ensures forall c ::
      t.flags(c) == if c.src < cf.n && InWrite(cf, c, c.src, k, 0) then cf.script[k].value else s.flags(c)
  {
    var a, s1 := AllWrite(cf, s, k, 0);
    forall q: nat, d: nat | q < cf.n && d < cf.n && d != q
      ensures s1.flags(CellOf(cf.script, k, q, d)) == cf.script[k].value {
      assert InWrite(cf, CellOf(cf.script, k, q, d), d, k, 0);
    }
    var b;
    b, t := AllWait(cf, s1, k, 0);
    RunsConcat(cf, s, a, s1, b, t);
    sched := a + b;
  }

  lemma OrderlySync(cf: Config, s: State, k: nat) returns (sched: seq<nat>, t: State)
    requires Clean(cf, s, k) && k < |cf.script|
    ensures Runs(cf, s, sched, t) && Clean(cf, t, k + 1)
  {
    var a, u := TogetherToReset(cf, s, k);
    var b;
    b, t := AllReset(cf, u, k, 0);
    RunsConcat(cf, s, a, u, b, t);
    sched := a + b;
    var k' := k + 1;
    forall r: nat, d: nat | r < cf.n && d < cf.n && r != d ensures CleanPair(cf, t, k', r, d) {
      assert CleanPair(cf, s, k, r, d);
      forall b ensures t.flags(Cell(b, r, d)) == Content(cf.script, b, k', k') {
        LeavesContent(cf, s, k, r, d, b, u, t);
      }
    }
  }

  /** What an orderly sync leaves in one flag. */
  lemma LeavesContent(cf: Config, s: State, k: nat, r: nat, d: nat, b: bool, u: State, t: State)
    requires k < |cf.script| && r < cf.n && d < cf.n && r != d && CleanPair(cf, s, k, r, d)
    requires var c := Cell(b, r, d);
      && u.flags(c) == (if InWrite(cf, c, d, k, 0) then cf.script[k].value else s.flags(c))
      && t.flags(c) == (if InReset(cf, c, r, k, 0) then 0 else u.flags(c))
    ensures t.flags(Cell(b, r, d)) == Content(cf.script, b, k + 1, k + 1)
  {
    ContentSettled(cf.script, b, k, k + 1);
  }

  /** Every sync of the script can be reached in lockstep. */
  lemma {:induction false} LockStep(cf: Config, s: State, k: nat) returns (sched: seq<nat>, t: State)
    requires Initial(cf, s) && k <= |cf.script|
    ensures Runs(cf, s, sched, t) && Clean(cf, t, k)
  {
    if k == 0 {
      sched, t := [], s;
    } else {
      var a, u := LockStep(cf, s, k - 1);
      var b;
      b, t := OrderlySync(cf, u, k - 1);
      RunsConcat(cf, s, a, u, b, t);
      sched := a + b;
    }
  }

  /** If some sync awaits what its array already holds, a rank can leave it before the others arrive. */
  lemma StaleBreaksBarrier(cf: Config, s: State, k: nat) returns (sched: seq<nat>, t: State)
    requires 2 <= cf.n && Initial(cf, s) && k < |cf.script| && !Distinguished(cf.script, k)
    ensures Runs(cf, s, sched, t) && !Barrier(t)
  {
    var a, u := LockStep(cf, s, k);
    var b;
    b, t := PassAlone(cf, u, k);
    RunsConcat(cf, s, a, u, b, t);
    sched := a + b;
    assert !Issued(t, 1, 0, k);
  }

  /** Rank 0 goes through such a sync alone. */
  lemma PassAlone(cf: Config, s: State, k: nat) returns (sched: seq<nat>, t: State)
    requires 2 <= cf.n && Clean(cf, s, k) && k < |cf.script| && !Distinguished(cf.script, k)
    ensures Runs(cf, s, sched, t) && t.ranks == s.ranks[0 := Rank(k + 1, Writing, 0)]
  {
    var a, s1 := WritePhase(cf, s, 0, k, 0);
    forall d: nat | d < cf.n && d != 0 ensures s1.flags(CellOf(cf.script, k, 0, d)) == cf.script[k].value {
      assert CleanPair(cf, s, k, 0, d) && !InWrite(cf, CellOf(cf.script, k, 0, d), 0, k, 0);
    }
    var b, c;
    b, c, t := WaitAndReset(cf, s1, k);
    RunsConcat(cf, s, a, s1, b + c, t);
    sched := a + (b + c);
  }

  lemma WaitAndReset(cf: Config, s: State, k: nat) returns (a: seq<nat>, b: seq<nat>, t: State)
    requires Sized(cf, s) && 2 <= cf.n && k < |cf.script| && s.ranks[0] == Rank(k, Waiting, 0)
    requires forall d: nat :: d < cf.n && d != 0 ==> s.flags(CellOf(cf.script, k, 0, d)) == cf.script[k].value
    ensures Runs(cf, s, a + b, t) && Sized(cf, t) && t.ranks == s.ranks[0 := Rank(k + 1, Writing, 0)]
    ensures forall c :: t.flags(c) == if InReset(cf, c, 0, k, 0) then 0 else s.flags(c)
  {
    var u;
    a, u := WaitPhase(cf, s, 0, k, 0);
    b, t := ResetPhase(cf, u, 0, k, 0);
    RunsConcat(cf, s, a, u, b, t);
  }

  // ---------------------------------------------------------------- two syncs in a row on one array

  /** Rank 0 steps over its own place in the wait loop. */
  lemma SkipOwn(cf: Config, s: State, k: nat) returns (sched: seq<nat>, t: State)
    requires Sized(cf, s) && 2 <= cf.n && k < |cf.script| && s.ranks[0] == Rank(k, Waiting, 0)
    ensures Runs(cf, s, sched, t) && Sized(cf, t)
    ensures t.ranks == s.ranks[0 := Rank(k, Waiting, 1)] && t.flags == s.flags
  {
    t := Step(cf, s, 0);
    sched := [0];
    assert Runs(cf, t, [], t) && [0][1..] == [];
  }

  function AheadFlag(cf: Config, s: State, k: nat, c: Cell): int
    requires k + 1 < |cf.script|
  {
    if InWrite(cf, c, 0, k + 1, 0) then cf.script[k + 1].value else if InReset(cf, c, 0, k, 0) then 0 else s.flags(c)
  }

  /** Rank 0 finishes sync `k` and writes its flags for the next one. */
  lemma RankZeroAhead(cf: Config, s: State, k: nat) returns (sched: seq<nat>, t: State)
    requires Sized(cf, s) && 2 <= cf.n && k + 1 < |cf.script| && s.ranks[0] == Rank(k, Resetting, 0)
    ensures Runs(cf, s, sched, t) && Sized(cf, t) && t.ranks == s.ranks[0 := Rank(k + 1, Waiting, 0)]
    ensures forall c :: t.flags(c) == AheadFlag(cf, s, k, c)
  {
    var a, u := ResetPhase(cf, s, 0, k, 0);
    var b;
    b, t := WritePhase(cf, u, 0, k + 1, 0);
    RunsConcat(cf, s, a, u, b, t);
    sched := a + b;
  }

  /** All write sync `k`; rank 0 passes it, writes the next one, and comes to its first wait there. */
  lemma OverwriteRun(cf: Config, s: State, k: nat) returns (sched: seq<nat>, u: State, t: State)
    requires Clean(cf, s, k) && 2 <= cf.n && k + 1 < |cf.script|
    ensures Runs(cf, s, sched, t) && Sized(cf, t) && t.ranks[0] == Rank(k + 1, Waiting, 1)
    ensures forall r :: 0 < r < cf.n ==> t.ranks[r] == Rank(k, Waiting, 0)
    ensures forall c :: t.flags(c) == AheadFlag(cf, u, k, c)
    ensures forall c ::
      u.flags(c) == if c.src < cf.n && InWrite(cf, c, c.src, k, 0) then cf.script[k].value else s.flags(c)
  {
    var a, s1 := AllWrite(cf, s, k, 0);
    forall d: nat | d < cf.n && d != 0 ensures s1.flags(CellOf(cf.script, k, 0, d)) == cf.script[k].value {
      assert InWrite(cf, CellOf(cf.script, k, 0, d), d, k, 0);
    }
    var b;
    b, u := WaitPhase(cf, s1, 0, k, 0);
    var c, s3 := RankZeroAhead(cf, u, k);
    var d;
    d, t := SkipOwn(cf, s3, k + 1);
    RunsConcat(cf, u, c, s3, d, t);
    RunsConcat(cf, s1, b, u, c + d, t);
    RunsConcat(cf, s, a, s1, b + (c + d), t);
    sched := a + (b + (c + d));
  }

  /**
   * Without a reset, a fast rank's flag for the next sync overwrites the one a slow rank still
   * waits for: nobody can go on.
   */
  lemma OverwriteDeadlocks(cf: Config, s: State, k: nat) returns (sched: seq<nat>, t: State)
    requires 2 <= cf.n && Initial(cf, s) && k + 1 < |cf.script| && !Alternates(cf.script, k + 1)
    requires !cf.script[k].reset && cf.script[k].value != cf.script[k + 1].value
    ensures Runs(cf, s, sched, t) && Sized(cf, t) && MissedWait(cf, t, 1) && Deadlock(cf, t)
  {
    var a, s0 := LockStep(cf, s, k);
    var b, u;
    b, u, t := OverwriteRun(cf, s0, k);
    RunsConcat(cf, s, a, s0, b, t);
    sched := a + b;
    Overwritten(cf, s0, u, t, k);
  }

  lemma Overwritten(cf: Config, s: State, u: State, t: State, k: nat)
    requires 2 <= cf.n && k + 1 < |cf.script| && !Alternates(cf.script, k + 1)
    requires !cf.script[k].reset && cf.script[k].value != cf.script[k + 1].value
    requires Sized(cf, t) && t.ranks[0] == Rank(k + 1, Waiting, 1)
    requires forall r :: 0 < r < cf.n ==> t.ranks[r] == Rank(k, Waiting, 0)
    requires forall c :: t.flags(c) == AheadFlag(cf, u, k, c)
    requires forall c ::
      u.flags(c) == if c.src < cf.n && InWrite(cf, c, c.src, k, 0) then cf.script[k].value else s.flags(c)
    ensures MissedWait(cf, t, 1) && Deadlock(cf, t)
  {
    var c := CellOf(cf.script, k, 0, 1);
    assert InWrite(cf, c, 1, k, 0) && !InWrite(cf, c, 0, k + 1, 0) && t.flags(c) == cf.script[k].value;
    forall r: nat | 0 < r < cf.n ensures !Enabled(cf, t, r) {
      assert InWrite(cf, CellOf(cf.script, k, r, 0), 0, k + 1, 0);
    }
    assert !Done(cf, t, 1);
  }

  /** All ranks but 0 wait in sync `m` for rank 0, whose flag is gone; rank 0 has their flags. */
  ghost predicate Erased(cf: Config, t: State, m: nat)
  {
    && m < |cf.script| && Sized(cf, t) && (forall r :: 0 <= r < cf.n ==> t.ranks[r] == Rank(m, Waiting, 0))
    && (forall r: nat :: 0 < r < cf.n ==> t.flags(CellOf(cf.script, m, r, 0)) == 0)
    && (forall d: nat :: 0 < d < cf.n ==> t.flags(CellOf(cf.script, m, 0, d)) == cf.script[m].value)
  }

  function TogetherFlag(cf: Config, s: State, k: nat, c: Cell): int
    requires k < |cf.script|
  {
    if c.src < cf.n && InWrite(cf, c, c.src, k, 0) then cf.script[k].value else s.flags(c)
  }

  function OthersFlag(cf: Config, s: State, k: nat, c: Cell): int
    requires k + 1 < |cf.script|
  {
    if 1 <= c.src < cf.n && InWrite(cf, c, c.src, k + 1, 0) then cf.script[k + 1].value
    else if 1 <= c.dst < cf.n && InReset(cf, c, c.dst, k, 0) then 0
    else s.flags(c)
  }

  /** All pass the waits of sync `k`, and rank 0 goes ahead before the others reset. */
  lemma FirstAhead(cf: Config, s: State, k: nat) returns (sched: seq<nat>, u: State, t: State)
    requires Clean(cf, s, k) && 2 <= cf.n && k + 1 < |cf.script|
    ensures Runs(cf, s, sched, t) && Sized(cf, t) && t.ranks[0] == Rank(k + 1, Waiting, 0)
    ensures forall r :: 0 < r < cf.n ==> t.ranks[r] == Rank(k, Resetting, 0)
    ensures forall c :: u.flags(c) == TogetherFlag(cf, s, k, c)
    ensures forall c :: t.flags(c) == AheadFlag(cf, u, k, c)
  {
    var a;
    a, u := TogetherToReset(cf, s, k);
    var b;
    b, t := RankZeroAhead(cf, u, k);
    RunsConcat(cf, s, a, u, b, t);
    sched := a + b;
  }

  /** The others reset and write the next sync. */
  lemma OthersFollow(cf: Config, s: State, k: nat) returns (sched: seq<nat>, t: State)
    requires Sized(cf, s) && 2 <= cf.n && k + 1 < |cf.script| && s.ranks[0] == Rank(k + 1, Waiting, 0)
    requires forall r :: 0 < r < cf.n ==> s.ranks[r] == Rank(k, Resetting, 0)
    ensures Runs(cf, s, sched, t) && Sized(cf, t)
    ensures forall r :: 0 <= r < cf.n ==> t.ranks[r] == Rank(k + 1, Waiting, 0)
    ensures forall c :: t.flags(c) == OthersFlag(cf, s, k, c)
  {
    var a, u := AllReset(cf, s, k, 1);
    var b;
    b, t := AllWrite(cf, u, k + 1, 1);
    RunsConcat(cf, s, a, u, b, t);
    sched := a + b;
  }

  lemma EraseRun(cf: Config, s: State, k: nat) returns (sched: seq<nat>, t: State)
    requires Clean(cf, s, k) && 2 <= cf.n && k + 1 < |cf.script| && !Alternates(cf.script, k + 1) && cf.script[k].reset
    ensures Runs(cf, s, sched, t) && Erased(cf, t, k + 1)
    ensures forall c: Cell :: c.complete != cf.script[k].complete ==> t.flags(c) == s.flags(c)
  {
    var a, u, v := FirstAhead(cf, s, k);
    var b;
    b, t := OthersFollow(cf, v, k);
    RunsConcat(cf, s, a, v, b, t);
    sched := a + b;
    forall c ensures t.flags(c) == ErasedFlag(cf, s, k, c) { EraseFlags(cf, s, k, c, u, v, t); }
    ErasedFlags(cf, s, k, t);
  }

  /**
   * The flags after that, as far as they matter: flags of rank 0 on others, of others on rank 0,
   * and the other array.
   */
  function ErasedFlag(cf: Config, s: State, k: nat, c: Cell): int
    requires k + 1 < |cf.script|
  {
    if c.complete != cf.script[k].complete then s.flags(c)
    else if c.src == 0 && 0 < c.dst < cf.n then 0
    else if InWrite(cf, c, c.src, k + 1, 0) && 0 < c.src < cf.n then cf.script[k + 1].value
    else if InReset(cf, c, c.dst, k, 0) && 0 < c.dst < cf.n then 0
    else if InWrite(cf, c, 0, k + 1, 0) then cf.script[k + 1].value
    else if InReset(cf, c, 0, k, 0) then 0
    else if c.src < cf.n && InWrite(cf, c, c.src, k, 0) then cf.script[k].value
    else s.flags(c)
  }

  lemma EraseFlags(cf: Config, s: State, k: nat, c: Cell, u: State, v: State, t: State)
    requires k + 1 < |cf.script| && !Alternates(cf.script, k + 1) && cf.script[k].reset && 2 <= cf.n
    requires u.flags(c) == TogetherFlag(cf, s, k, c) && v.flags(c) == AheadFlag(cf, u, k, c)
    requires t.flags(c) == OthersFlag(cf, v, k, c)
    ensures t.flags(c) == ErasedFlag(cf, s, k, c)
  {
  }

  lemma ErasedFlags(cf: Config, s: State, k: nat, t: State)
    requires k + 1 < |cf.script| && !Alternates(cf.script, k + 1) && cf.script[k].reset && 2 <= cf.n
    requires Sized(cf, t) && forall r :: 0 <= r < cf.n ==> t.ranks[r] == Rank(k + 1, Waiting, 0)
    requires forall c :: t.flags(c) == ErasedFlag(cf, s, k, c)
    ensures Erased(cf, t, k + 1)
  {
    var m := k + 1;
    forall e: nat | 0 < e < cf.n ensures t.flags(CellOf(cf.script, m, 0, e)) == cf.script[m].value {
      assert InWrite(cf, CellOf(cf.script, m, 0, e), e, m, 0);
    }
  }

  /** With a reset, a slow rank erases a fast rank's flag for the next sync and waits for it in vain. */
  lemma EraseMisses(cf: Config, s: State, k: nat) returns (sched: seq<nat>, t: State)
    requires 2 <= cf.n && Initial(cf, s) && k + 1 < |cf.script| && !Alternates(cf.script, k + 1)
    requires cf.script[k].reset && cf.script[k + 1].value != 0
    ensures Runs(cf, s, sched, t) && Erased(cf, t, k + 1) && MissedWait(cf, t, 1)
    ensures t.flags(Cell(!cf.script[k].complete, 0, 1)) == Content(cf.script, !cf.script[k].complete, k, k)
  {
    var a, s0 := LockStep(cf, s, k);
    var b;
    b, t := EraseRun(cf, s0, k);
    RunsConcat(cf, s, a, s0, b, t);
    sched := a + b;
    assert CleanPair(cf, s0, k, 0, 1);
    assert t.flags(CellOf(cf.script, k + 1, 1, 0)) == 0;
  }

  /** Syncs on one array leave the other one alone. */
  lemma ContentSkips(sc: Script, b: bool, k: nat)
    requires k + 2 <= |sc| && sc[k].complete != b && sc[k + 1].complete != b
    ensures Content(sc, b, k + 2, k + 2) == Content(sc, b, k, k)
  {
    assert Latest(sc, b, k + 2) == Latest(sc, b, k + 1) == Latest(sc, b, k);
  }

  /** All ranks but 0 still wait in sync `m` for an erased flag. */
  ghost predicate OthersStuck(cf: Config, t: State, m: nat)
  {
    && m < |cf.script| && Sized(cf, t) && cf.script[m].value != 0
    && forall r: nat :: 0 < r < cf.n ==> t.ranks[r] == Rank(m, Waiting, 0) && t.flags(CellOf(cf.script, m, r, 0)) == 0
  }

  lemma AllStuck(cf: Config, t: State, m: nat)
    requires OthersStuck(cf, t, m) && 2 <= cf.n && !Enabled(cf, t, 0)
    ensures Deadlock(cf, t)
  {
    forall r: nat | r < cf.n ensures !Enabled(cf, t, r) {
      assert 0 < r ==> t.flags(CellOf(cf.script, m, r, 0)) == 0;
    }
    assert t.ranks[1] == Rank(m, Waiting, 0) && !Done(cf, t, 1);
  }

  /** Rank 0 finishes sync `m`, and its next one if there is one, up to its first wait there. */
  lemma ErasedGoesOn(cf: Config, s: State, m: nat) returns (sched: seq<nat>, t: State)
    requires Erased(cf, s, m) && 2 <= cf.n && cf.script[m].value != 0
    requires m + 1 < |cf.script| ==> Alternates(cf.script, m + 1)
    ensures Runs(cf, s, sched, t) && OthersStuck(cf, t, m)
    ensures m + 1 == |cf.script| ==> Done(cf, t, 0)
    ensures m + 1 < |cf.script| ==> t.ranks[0] == Rank(m + 1, Waiting, 1)
    ensures m + 1 < |cf.script| ==> var c := CellOf(cf.script, m + 1, 0, 1); t.flags(c) == s.flags(c)
  {
    if m + 1 == |cf.script| {
      var a, b;
      a, b, t := WaitAndReset(cf, s, m);
      sched := a + b;
    } else {
      sched, t := ErasedNext(cf, s, m);
    }
    forall r: nat | 0 < r < cf.n ensures t.flags(CellOf(cf.script, m, r, 0)) == 0 {
      assert s.flags(CellOf(cf.script, m, r, 0)) == 0;
    }
  }

  lemma ErasedNext(cf: Config, s: State, m: nat) returns (sched: seq<nat>, t: State)
    requires Sized(cf, s) && 2 <= cf.n && m + 1 < |cf.script| && s.ranks[0] == Rank(m, Waiting, 0)
    requires forall d: nat :: d < cf.n && d != 0 ==> s.flags(CellOf(cf.script, m, 0, d)) == cf.script[m].value
    ensures Runs(cf, s, sched, t) && Sized(cf, t) && t.ranks == s.ranks[0 := Rank(m + 1, Waiting, 1)]
    ensures forall c :: t.flags(c) == AheadFlag(cf, s, m, c)
  {
    var a, s1 := WaitPhase(cf, s, 0, m, 0);
    var b, s2 := RankZeroAhead(cf, s1, m);
    var c;
    c, t := SkipOwn(cf, s2, m + 1);
    RunsConcat(cf, s1, b, s2, c, t);
    RunsConcat(cf, s, a, s1, b + c, t);
    sched := a + (b + c);
  }

  /** If the syncs after that are in order, or there are none, everybody is stuck for good. */
  lemma EraseDeadlocks(cf: Config, s: State, k: nat) returns (sched: seq<nat>, t: State)
    requires 2 <= cf.n && Initial(cf, s) && k + 1 < |cf.script| && !Alternates(cf.script, k + 1)
    requires cf.script[k].reset && cf.script[k + 1].value != 0
    requires k + 2 < |cf.script| ==> SafeAt(cf.script, k + 2)
    ensures Runs(cf, s, sched, t) && Sized(cf, t) && Deadlock(cf, t)
  {
    var a, u := EraseMisses(cf, s, k);
    var b;
    b, t := ErasedGoesOn(cf, u, k + 1);
    RunsConcat(cf, s, a, u, b, t);
    sched := a + b;
    if k + 2 < |cf.script| { ContentSkips(cf.script, cf.script[k + 2].complete, k); }
    AllStuck(cf, t, k + 1);
  }

  // ---------------------------------------------------------------- the exact condition

  ghost predicate AlwaysSound(cf: Config, s: State)
  {
    forall sched, t :: Runs(cf, s, sched, t) ==> Sound(cf, t)
  }

  lemma SafeIsSound(cf: Config, s: State, sched: seq<nat>, t: State)
    requires Safe(cf.script) && Initial(cf, s) && Runs(cf, s, sched, t)
    ensures Sound(cf, t)
  {
    BarrierSafe(cf, s, sched, t);
    WaitNeverMissed(cf, s, sched, t, 0);
    forall r: nat ensures !MissedWait(cf, t, r) { WaitNeverMissed(cf, s, sched, t, r); }
    if exists u: nat :: u < cf.n && !Done(cf, t, u) {
      var u: nat :| u < cf.n && !Done(cf, t, u);
      var r := NoDeadlock(cf, s, sched, t, u);
      assert Enabled(cf, t, r) && r < cf.n;
    }
  }

  /** A sync that is not safe fails in some run. */
  lemma UnsafeFails(cf: Config, s: State, k: nat) returns (sched: seq<nat>, t: State)
    requires 2 <= cf.n && Initial(cf, s) && k < |cf.script| && !SafeAt(cf.script, k)
    ensures Runs(cf, s, sched, t) && !Sound(cf, t)
  {
    if !Distinguished(cf.script, k) {
      sched, t := StaleBreaksBarrier(cf, s, k);
    } else if cf.script[k - 1].reset {
      sched, t := EraseMisses(cf, s, k - 1);
    } else {
      sched, t := OverwriteDeadlocks(cf, s, k - 1);
    }
  }

  /**
   * Barrier, no missed wait and no deadlock in every run, if and only if consecutive syncs use
   * different arrays and no sync awaits a stale value.
   */
  lemma SoundIffSafe(cf: Config, s: State)
    requires 2 <= cf.n && Initial(cf, s)
    ensures AlwaysSound(cf, s) <==> Safe(cf.script)
  {
    if Safe(cf.script) {
      forall sched, t | Runs(cf, s, sched, t) ensures Sound(cf, t) { SafeIsSound(cf, s, sched, t); }
    } else {
      var k: nat :| k < |cf.script| && !SafeAt(cf.script, k);
      var sched, t := UnsafeFails(cf, s, k);
    }
  }
}
