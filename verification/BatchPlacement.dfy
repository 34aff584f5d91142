/**
 * Placement of work batches (nccl/src/enqueue.cc `finishPlan`).  The batches of all channels are
 * placed round robin in one array behind the kernel arguments and linked by relative jumps, so
 * that the block of the n-th channel starts at slot n.
 */
module BatchPlacement {
  import opened WorkBatch

  /** The device follows the jump links of the batch array from slot `ix`. */
  function Run(sz: Sizes, out: seq<Batch>, ix: nat, acc: seq<nat>): seq<Loaded>
    decreases |out| - ix
  {
    if |out| <= ix then []
    else
      var b, offsets := out[ix], acc + Offsets(sz, out[ix]);
      if b.jump == 0 then (if b.nextExtends then [] else [Loaded(b.kind, b.func, offsets)])
      else if b.nextExtends then Run(sz, out, ix + b.jump, offsets)
      else [Loaded(b.kind, b.func, offsets)] + Run(sz, out, ix + b.jump, [])
  }

  /** The slots `l` hold the batches `q`, linked by jumps. */
  ghost predicate Placed(q: seq<Batch>, out: seq<Batch>, l: seq<nat>)
  {
    |l| <= |q| && forall k :: 0 <= k < |l| ==> PlacedAt(q, out, l, k)
  }

  ghost predicate PlacedAt(q: seq<Batch>, out: seq<Batch>, l: seq<nat>, k: int)
    requires 0 <= k < |l| <= |q|
  {
    && l[k] < |out| && (k + 1 < |l| ==> l[k] < l[k + 1])
    && out[l[k]] == q[k].(jump := if k + 1 < |l| && l[k] < l[k + 1] then l[k + 1] - l[k] else 0)
  }

  /** Following the links loads what the channel's own list of batches loads. */
  lemma {:induction false} RunFollows(sz: Sizes, q: seq<Batch>, out: seq<Batch>, l: seq<nat>, k: nat, acc: seq<nat>)
    requires Placed(q, out, l) && |l| == |q| && Closed(q) && k < |q|
    ensures Run(sz, out, l[k], acc) == Load(sz, q[k..], acc)
    decreases |q| - k
  {
    assert PlacedAt(q, out, l, k);
    assert Offsets(sz, out[l[k]]) == Offsets(sz, q[k]);
    assert q[k..] == [q[k]] + q[k + 1..];
    LoadStep(sz, q[k], q[k + 1..], acc);
    if k + 1 < |q| {
      assert l[k] + out[l[k]].jump == l[k + 1];
      RunFollows(sz, q, out, l, k + 1, if q[k].nextExtends then acc + Offsets(sz, q[k]) else []);
    }
  }

  /** Everything the placement loops know: slots by channel, and the channel of every slot. */
  ghost predicate Layout(channels: seq<seq<Batch>>, out: seq<Batch>, place: seq<seq<nat>>, owner: seq<nat>)
  {
    |place| == |channels| && |owner| == |out| && forall c: nat :: c < |channels| ==>
      LayoutAt(channels, out, place, owner, c)
  }

  ghost predicate LayoutAt(channels: seq<seq<Batch>>, out: seq<Batch>, place: seq<seq<nat>>, owner: seq<nat>, c: nat)
    requires |place| == |channels| && |owner| == |out| && c < |channels|
  {
    Placed(channels[c], out, place[c]) && forall k :: 0 <= k < |place[c]| ==> OwnerAt(place[c], owner, c, k)
  }

  predicate OwnerAt(l: seq<nat>, owner: seq<nat>, c: nat, k: int)
    requires 0 <= k < |l|
  {
    l[k] < |owner| && owner[l[k]] == c
  }

  /** The array after the next batch of a channel has been added and linked. */
  function Linked(out: seq<Batch>, prev: int, b: Batch): seq<Batch>
  {
    (if 0 <= prev < |out| then out[prev := out[prev].(jump := |out| - prev)] else out) + [b]
  }

  lemma {:induction false} PlacesIncrease(q: seq<Batch>, out: seq<Batch>, l: seq<nat>, i: nat, k: nat)
    requires Placed(q, out, l) && i < k < |l|
    ensures l[i] < l[k]
    decreases k
  {
    assert PlacedAt(q, out, l, k - 1);
    if i < k - 1 { PlacesIncrease(q, out, l, i, k - 1); }
  }

  /** The channel that gets a batch. */
  lemma PlaceOwn(q: seq<Batch>, out: seq<Batch>, l: seq<nat>, prev: int)
    requires Placed(q, out, l) && |l| < |q| && q[|l|].jump == 0 && prev == if l == [] then -1 else l[|l| - 1]
    ensures Placed(q, Linked(out, prev, q[|l|]), l + [|out|])
  {
    var out', l' := Linked(out, prev, q[|l|]), l + [|out|];
    forall k | 0 <= k < |l'| ensures PlacedAt(q, out', l', k) {
      if k < |l| {
        assert PlacedAt(q, out, l, k);
        if k + 1 < |l| { PlacesIncrease(q, out, l, k, |l| - 1); }
      }
    }
  }

  /** The other channels. */
  lemma PlaceOther(q: seq<Batch>, out: seq<Batch>, l: seq<nat>, owner: seq<nat>, c: nat, prev: int, b: Batch)
    requires Placed(q, out, l) && |owner| == |out| && forall k :: 0 <= k < |l| ==> OwnerAt(l, owner, c, k)
    requires 0 <= prev < |out| ==> owner[prev] != c
    ensures Placed(q, Linked(out, prev, b), l)
  {
    var out' := Linked(out, prev, b);
    forall k | 0 <= k < |l| ensures PlacedAt(q, out', l, k) {
      assert PlacedAt(q, out, l, k) && OwnerAt(l, owner, c, k);
    }
  }

  lemma PlaceOne(channels: seq<seq<Batch>>, out: seq<Batch>, place: seq<seq<nat>>, owner: seq<nat>, c: nat, prev: int)
    requires Layout(channels, out, place, owner) && c < |channels| && |place[c]| < |channels[c]|
    requires channels[c][|place[c]|].jump == 0
    requires prev == if place[c] == [] then -1 else place[c][|place[c]| - 1]
    ensures Layout(channels, Linked(out, prev, channels[c][|place[c]|]), place[c := place[c] + [|out|]], owner + [c])
  {
    var b := channels[c][|place[c]|];
    var out', place', owner' := Linked(out, prev, b), place[c := place[c] + [|out|]], owner + [c];
    assert LayoutAt(channels, out, place, owner, c);
    if place[c] != [] { assert OwnerAt(place[c], owner, c, |place[c]| - 1); }
    forall d: nat | d < |channels| ensures LayoutAt(channels, out', place', owner', d) {
      assert LayoutAt(channels, out, place, owner, d);
      forall k | 0 <= k < |place'[d]| ensures OwnerAt(place'[d], owner', d, k) {
        assert k < |place[d]| ==> OwnerAt(place[d], owner, d, k);
      }
      if d == c {
        PlaceOwn(channels[c], out, place[c], prev);
      } else {
        PlaceOther(channels[d], out, place[d], owner, d, prev, b);
      }
    }
  }

  /** How far round `r` of the round robin has got: channels below `c` have had their turn in it. */
  ghost predicate Progress(
      channels: seq<seq<Batch>>, out: seq<Batch>, place: seq<seq<nat>>, prev: seq<int>, has: seq<bool>, r: nat, c: nat)
  {
    && |place| == |prev| == |has| == |channels| && c <= |channels|
    && (r == 0 ==> |out| == c)
    && forall d: nat :: d < |channels| ==> ProgressAt(channels, place, prev, has, r, c, d)
  }

  ghost predicate ProgressAt(
      channels: seq<seq<Batch>>, place: seq<seq<nat>>, prev: seq<int>, has: seq<bool>, r: nat, c: nat, d: nat)
    requires |place| == |prev| == |has| == |channels| && d < |channels|
  {
    var turns := if d < c then r + 1 else r;
    && |place[d]| == (if turns < |channels[d]| then turns else |channels[d]|) && has[d] == (turns < |channels[d]|)
    && prev[d] == (if place[d] == [] then -1 else place[d][|place[d]| - 1])
    && (place[d] != [] ==> place[d][0] == d)
  }

  lemma ProgressStep(
      channels: seq<seq<Batch>>, out: seq<Batch>, place: seq<seq<nat>>, prev: seq<int>, has: seq<bool>, r: nat, c: nat,
      out': seq<Batch>)
    requires Progress(channels, out, place, prev, has, r, c) && c < |channels| && has[c] && |out'| == |out| + 1
    requires channels[c] != []
    ensures Progress(channels, out', place[c := place[c] + [|out|]], prev[c := |out|], has[c := r + 1 < |channels[c]|],
      r, c + 1)
  {
    var c', place', prev', has' :=
      c + 1, place[c := place[c] + [|out|]], prev[c := |out|], has[c := r + 1 < |channels[c]|];
    assert ProgressAt(channels, place, prev, has, r, c, c);
    forall d: nat | d < |channels| ensures ProgressAt(channels, place', prev', has', r, c', d) {
      assert ProgressAt(channels, place, prev, has, r, c, d);
    }
  }

  lemma ProgressSkip(
      channels: seq<seq<Batch>>, out: seq<Batch>, place: seq<seq<nat>>, prev: seq<int>, has: seq<bool>, r: nat, c: nat)
    requires Progress(channels, out, place, prev, has, r, c) && c < |channels| && !has[c] && channels[c] != []
    ensures Progress(channels, out, place, prev, has, r, c + 1)
  {
    var c' := c + 1;
    assert ProgressAt(channels, place, prev, has, r, c, c);
    forall d: nat | d < |channels| ensures ProgressAt(channels, place, prev, has, r, c', d) {
      assert ProgressAt(channels, place, prev, has, r, c, d);
    }
  }

  lemma ProgressRound(
      channels: seq<seq<Batch>>, out: seq<Batch>, place: seq<seq<nat>>, prev: seq<int>, has: seq<bool>, r: nat)
    requires Progress(channels, out, place, prev, has, r, |channels|)
    ensures Progress(channels, out, place, prev, has, r + 1, 0)
  {
    var r' := r + 1;
    forall d: nat | d < |channels| ensures ProgressAt(channels, place, prev, has, r', 0, d) {
      assert ProgressAt(channels, place, prev, has, r, |channels|, d);
    }
  }

  /** The number of elements of all sequences together. */
  function Total<T>(ss: seq<seq<T>>): nat
  {
    if ss == [] then 0 else Total(ss[..|ss| - 1]) + |ss[|ss| - 1]|
  }

  lemma {:induction false} TotalGrows<T>(ss: seq<seq<T>>, c: nat, x: T)
    requires c < |ss|
    ensures Total(ss[c := ss[c] + [x]]) == Total(ss) + 1
  {
    var n := |ss| - 1;
    var ss' := ss[c := ss[c] + [x]];
    if c == n {
      assert ss'[..n] == ss[..n];
    } else {
      TotalGrows(ss[..n], c, x);
      assert ss'[..n] == ss[..n][c := ss[c] + [x]];
    }
  }

  lemma {:induction false} TotalSame<S, T>(a: seq<seq<S>>, b: seq<seq<T>>)
    requires |a| == |b| && forall c :: 0 <= c < |a| ==> |a[c]| == |b[c]|
    ensures Total(a) == Total(b)
  {
    if a != [] { TotalSame(a[..|a| - 1], b[..|b| - 1]); }
  }

  lemma {:induction false} NothingYet(place: seq<seq<nat>>)
    requires forall c :: 0 <= c < |place| ==> place[c] == []
    ensures Total(place) == 0
  {
    if place != [] { NothingYet(place[..|place| - 1]); }
  }

  ghost predicate Ready(channels: seq<seq<Batch>>)
  {
    forall c :: 0 <= c < |channels| ==> Closed(channels[c]) && NoJumps(channels[c])
  }

  /** The rounds end when the longest channel is exhausted. */
  function Longest(channels: seq<seq<Batch>>): nat
  {
    if channels == [] then 0
    else var m := Longest(channels[..|channels| - 1]); var n := |channels[|channels| - 1]|; if m < n then n else m
  }

  lemma {:induction false} LongestBound(channels: seq<seq<Batch>>, c: nat)
    requires c < |channels|
    ensures |channels[c]| <= Longest(channels)
  {
    if c < |channels| - 1 { LongestBound(channels[..|channels| - 1], c); }
  }

  /**
   * finishPlan's loops over the channels of the plan, in ascending order.  `has` is
   * `hasBatchMask`, `prev` is `batchPrev` with -1 for NULL.
   */
  method FinishPlan(channels: seq<seq<Batch>>, ghost sz: Sizes) returns (out: seq<Batch>)
    requires Ready(channels)
    ensures forall c: nat :: c < |channels| ==> Run(sz, out, c, []) == Load(sz, channels[c], [])
    ensures |out| == Total(channels)
  {
    var n := |channels|;
    var has, prev := seq(n, _ => true), seq(n, _ => -1);
    out := [];
    var r := 0; // batches dequeued from each channel that still has some
    ghost var place: seq<seq<nat>>, owner: seq<nat> := seq(n, _ => []), [];
    Start(channels, place, prev, has);
    NothingYet(place);
    while exists c :: 0 <= c < n && has[c]
      invariant Layout(channels, out, place, owner) && Progress(channels, out, place, prev, has, r, 0)
      invariant |out| == Total(place)
      decreases Longest(channels) - r
    {
      RoundUseful(channels, out, place, prev, has, r);
      for c := 0 to n
        invariant Layout(channels, out, place, owner) && Progress(channels, out, place, prev, has, r, c)
        invariant |out| == Total(place)
      {
        assert ProgressAt(channels, place, prev, has, r, c, c) && Closed(channels[c]);
        if has[c] {
          var b := channels[c][r];
          assert LayoutAt(channels, out, place, owner, c);
          assert place[c] != [] ==> PlacedAt(channels[c], out, place[c], |place[c]| - 1);
          PlaceOne(channels, out, place, owner, c, prev[c]);
          ProgressStep(channels, out, place, prev, has, r, c, Linked(out, prev[c], b));
          if prev[c] != -1 {
            out := out[prev[c] := out[prev[c]].(jump := |out| - prev[c])];
          }
          TotalGrows<nat>(place, c, |out|);
          place := place[c := place[c] + [|out|]];
          owner := owner + [c];
          prev := prev[c := |out|];
          has := has[c := r + 1 < |channels[c]|];
          out := out + [b];
        } else {
          ProgressSkip(channels, out, place, prev, has, r, c);
        }
      }
      ProgressRound(channels, out, place, prev, has, r);
      r := r + 1;
    }
    forall c: nat | c < n ensures |place[c]| == |channels[c]| {
      assert ProgressAt(channels, place, prev, has, r, 0, c) && !has[c];
    }
    TotalSame(place, channels);
    forall c: nat | c < n ensures Run(sz, out, c, []) == Load(sz, channels[c], []) {
      assert ProgressAt(channels, place, prev, has, r, 0, c) && LayoutAt(channels, out, place, owner, c);
      assert Closed(channels[c]);
      RunFollows(sz, channels[c], out, place[c], 0, []);
      assert channels[c][0..] == channels[c];
    }
  }

  lemma Start(channels: seq<seq<Batch>>, place: seq<seq<nat>>, prev: seq<int>, has: seq<bool>)
    requires Ready(channels) && |place| == |prev| == |has| == |channels|
    requires forall c :: 0 <= c < |channels| ==> place[c] == [] && prev[c] == -1 && has[c]
    ensures Layout(channels, [], place, []) && Progress(channels, [], place, prev, has, 0, 0)
  {
    forall d: nat | d < |channels| ensures ProgressAt(channels, place, prev, has, 0, 0, d) {
      assert Closed(channels[d]);
    }
  }

  lemma RoundUseful(
      channels: seq<seq<Batch>>, out: seq<Batch>, place: seq<seq<nat>>, prev: seq<int>, has: seq<bool>, r: nat)
    requires Progress(channels, out, place, prev, has, r, 0) && exists c :: 0 <= c < |channels| && has[c]
    ensures r < Longest(channels)
  {
    var c :| 0 <= c < |channels| && has[c];
    assert ProgressAt(channels, place, prev, has, r, 0, c);
    LongestBound(channels, c);
  }
}
